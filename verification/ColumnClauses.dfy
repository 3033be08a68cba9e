/** What a column's type and the clauses after it say: read in any order and
    number, and told by what is written rather than by how it is read. */
module ColumnClauses {
  import opened Options
  import opened Strings
  import opened Domain
  import opened Scanning
  import opened Rendering
  import opened ScriptTokens
  import opened Cursors
  import opened TableParser
  import opened ParseTable

  predicate IsName(t: Token) {
    t.Word? || t.Quoted?
  }

  function NameText(t: Token): string {
    match t
    case Word(w) => w
    case Quoted(name) => name
    case _ => ""
  }

  function NameTexts(names: seq<Token>): (r: seq<string>)
    ensures |r| == |names| && forall i :: 0 <= i < |r| ==> r[i] == NameText(names[i])
  {
    seq(|names|, i requires 0 <= i < |names| => NameText(names[i]))
  }

  // ----- the names of the types -----

  /** The names a script may give a type, the aliases of PostgreSQL among them
      (its manual, chapter 8, table 8.1); a serial type is the integer it
      counts with. */
  function Spellings(kind: DataTypeKind): set<string> {
    match kind
    case Text => {"text"}
    case Varchar => {"varchar", "character varying"}
    case Char => {"char", "character", "bpchar"}
    case SmallInt => {"smallint", "int2", "smallserial", "serial2"}
    case Integer => {"integer", "int", "int4", "serial", "serial4"}
    case BigInt => {"bigint", "int8", "bigserial", "serial8"}
    case Numeric => {"numeric", "decimal"}
    case Real => {"real", "float4"}
    case DoublePrecision => {"double precision", "float8", "float"}
    case Boolean => {"boolean", "bool"}
    case Date => {"date"}
    case Time => {"time", "time without time zone"}
    case Timestamp => {"timestamp", "timestamp without time zone"}
    case TimestampTz => {"timestamp with time zone", "timestamptz"}
    case Uuid => {"uuid"}
    case Json => {"json"}
    case Jsonb => {"jsonb"}
    case Bytea => {"bytea"}
  }

  const SERIALS: set<string> := {"serial", "serial2", "serial4", "serial8", "smallserial", "bigserial"}

  lemma SpelledText(name: string)
    ensures KindOf(name) == Some(DataTypeKind.Text) <==> name in Spellings(DataTypeKind.Text)
  {
  }

  lemma SpelledVarchar(name: string)
    ensures KindOf(name) == Some(Varchar) <==> name in Spellings(Varchar)
  {
  }

  lemma SpelledChar(name: string)
    ensures KindOf(name) == Some(Char) <==> name in Spellings(Char)
  {
  }

  lemma SpelledSmallInt(name: string)
    ensures KindOf(name) == Some(SmallInt) <==> name in Spellings(SmallInt)
  {
  }

  lemma SpelledInteger(name: string)
    ensures KindOf(name) == Some(Integer) <==> name in Spellings(Integer)
  {
  }

  lemma SpelledBigInt(name: string)
    ensures KindOf(name) == Some(BigInt) <==> name in Spellings(BigInt)
  {
  }

  lemma SpelledNumeric(name: string)
    ensures KindOf(name) == Some(Numeric) <==> name in Spellings(Numeric)
  {
  }

  lemma SpelledReal(name: string)
    ensures KindOf(name) == Some(Real) <==> name in Spellings(Real)
  {
  }

  lemma SpelledDoublePrecision(name: string)
    ensures KindOf(name) == Some(DoublePrecision) <==> name in Spellings(DoublePrecision)
  {
  }

  lemma SpelledBoolean(name: string)
    ensures KindOf(name) == Some(Boolean) <==> name in Spellings(Boolean)
  {
  }

  lemma SpelledDate(name: string)
    ensures KindOf(name) == Some(Date) <==> name in Spellings(Date)
  {
  }

  lemma SpelledTime(name: string)
    ensures KindOf(name) == Some(Time) <==> name in Spellings(Time)
  {
  }

  lemma SpelledTimestamp(name: string)
    ensures KindOf(name) == Some(Timestamp) <==> name in Spellings(Timestamp)
  {
  }

  lemma SpelledTimestampTz(name: string)
    ensures KindOf(name) == Some(TimestampTz) <==> name in Spellings(TimestampTz)
  {
  }

  lemma SpelledUuid(name: string)
    ensures KindOf(name) == Some(Uuid) <==> name in Spellings(Uuid)
  {
  }

  lemma SpelledJson(name: string)
    ensures KindOf(name) == Some(Json) <==> name in Spellings(Json)
  {
  }

  lemma SpelledJsonb(name: string)
    ensures KindOf(name) == Some(Jsonb) <==> name in Spellings(Jsonb)
  {
  }

  lemma SpelledBytea(name: string)
    ensures KindOf(name) == Some(Bytea) <==> name in Spellings(Bytea)
  {
  }

  /** A type is read as the kind it names, and as none when it names none. */
  lemma KindOfIff(name: string, kind: DataTypeKind)
    ensures KindOf(name) == Some(kind) <==> name in Spellings(kind)
  {
    hide KindOf, Spellings;
    match kind {
      case Text => SpelledText(name);
      case Varchar => SpelledVarchar(name);
      case Char => SpelledChar(name);
      case SmallInt => SpelledSmallInt(name);
      case Integer => SpelledInteger(name);
      case BigInt => SpelledBigInt(name);
      case Numeric => SpelledNumeric(name);
      case Real => SpelledReal(name);
      case DoublePrecision => SpelledDoublePrecision(name);
      case Boolean => SpelledBoolean(name);
      case Date => SpelledDate(name);
      case Time => SpelledTime(name);
      case Timestamp => SpelledTimestamp(name);
      case TimestampTz => SpelledTimestampTz(name);
      case Uuid => SpelledUuid(name);
      case Json => SpelledJson(name);
      case Jsonb => SpelledJsonb(name);
      case Bytea => SpelledBytea(name);
    }
  }

  // ----- the clauses -----

  /** One clause as it is written. A `COLLATE`, a `GENERATED`, or what belongs to
      them is passed over. */
  datatype Clause =
    | NotNull
    | Null
    | PrimaryKey
    | Unique
    | Default(expression: seq<Token>)
    | Check(inside: seq<Token>)
    | Constraint(name: Token)
    | Collate(more: seq<Token>)
    | Generated(more: seq<Token>)

  const HEADS: set<string> := {"not", "null", "primary", "unique", "default", "check", "constraint", "references"}

  predicate PassedOver(t: Token) {
    t != Punct(',') && t != Punct(')') && !(t.Word? && t.word in HEADS)
  }

  /** Parentheses match, none closing before it opens. */
  predicate Matched(tokens: seq<Token>, depth: nat)
    decreases |tokens|
  {
    if tokens == [] then depth == 0
    else if tokens[0] == Punct('(') then Matched(tokens[1..], depth + 1)
    else if tokens[0] == Punct(')') then depth > 0 && Matched(tokens[1..], depth - 1)
    else Matched(tokens[1..], depth)
  }

  predicate Readable(clause: Clause) {
    match clause
    case Default(expression) => Contained(expression, 0)
    case Check(inside) => Matched(inside, 0)
    case Collate(more) => forall i :: 0 <= i < |more| ==> PassedOver(more[i])
    case Generated(more) => forall i :: 0 <= i < |more| ==> PassedOver(more[i])
    case _ => true
  }

  predicate AllReadable(clauses: seq<Clause>) {
    forall i :: 0 <= i < |clauses| ==> Readable(clauses[i])
  }

  function Clausal(clause: Clause): seq<Token> {
    match clause
    case NotNull => [Word("not"), Word("null")]
    case Null => [Word("null")]
    case PrimaryKey => [Word("primary"), Word("key")]
    case Unique => [Word("unique")]
    case Default(expression) => [Word("default")] + expression
    case Check(inside) => [Word("check"), Punct('(')] + inside + [Punct(')')]
    case Constraint(name) => [Word("constraint"), name]
    case Collate(more) => [Word("collate")] + more
    case Generated(more) => [Word("generated")] + more
  }

  function Written(clauses: seq<Clause>): seq<Token> {
    if clauses == [] then [] else Clausal(clauses[0]) + Written(clauses[1..])
  }

  lemma {:induction false} WrittenBoth(a: seq<Clause>, b: seq<Clause>)
    ensures Written(a + b) == Written(a) + Written(b)
  {
    if a == [] {
      assert a + b == b;
    } else {
      assert (a + b)[1..] == a[1..] + b;
      WrittenBoth(a[1..], b);
    }
  }

  // ----- what they say -----

  predicate SaysNull(clause: Clause) {
    clause.NotNull? || clause.Null? || clause.PrimaryKey?
  }

  predicate SaysDefault(clause: Clause) {
    clause.Default? && clause.expression != []
  }

  /** The last clause that says whether the column may be null. */
  predicate LastNull(clauses: seq<Clause>, i: nat) {
    i < |clauses| && SaysNull(clauses[i]) && forall j :: i < j < |clauses| ==> !SaysNull(clauses[j])
  }

  predicate LastDefault(clauses: seq<Clause>, i: nat) {
    i < |clauses| && SaysDefault(clauses[i]) && forall j :: i < j < |clauses| ==> !SaysDefault(clauses[j])
  }

  /** `after` is `before` with what the clauses say: a flag for PRIMARY KEY and
      for UNIQUE, and the last word on nulls and on the default. */
  ghost predicate Stated(before: ParsedColumn, clauses: seq<Clause>, after: ParsedColumn) {
    && after.name == before.name && after.dataType == before.dataType
    && (after.primaryKey <==> before.primaryKey || PrimaryKey in clauses)
    && (after.unique <==> before.unique || Unique in clauses)
    && (forall i: nat :: LastNull(clauses, i) ==> (after.nullable <==> clauses[i].Null?))
    && ((forall i :: 0 <= i < |clauses| ==> !SaysNull(clauses[i])) ==> after.nullable == before.nullable)
    && (forall i: nat :: LastDefault(clauses, i) ==> after.defaultValue == Some(Render(clauses[i].expression)))
    && ((forall i :: 0 <= i < |clauses| ==> !SaysDefault(clauses[i])) ==> after.defaultValue == before.defaultValue)
  }

  lemma {:induction false} SomeLastNull(clauses: seq<Clause>, i: nat) returns (last: nat)
    requires i < |clauses| && SaysNull(clauses[i])
    ensures LastNull(clauses, last)
    decreases |clauses| - i
  {
    if j: nat :| i < j < |clauses| && SaysNull(clauses[j]) {
      last := SomeLastNull(clauses, j);
    } else {
      last := i;
    }
  }

  lemma {:induction false} SomeLastDefault(clauses: seq<Clause>, i: nat) returns (last: nat)
    requires i < |clauses| && SaysDefault(clauses[i])
    ensures LastDefault(clauses, last)
    decreases |clauses| - i
  {
    if j: nat :| i < j < |clauses| && SaysDefault(clauses[j]) {
      last := SomeLastDefault(clauses, j);
    } else {
      last := i;
    }
  }

  /** What the clauses say fixes the column. */
  lemma StatedIsOne(before: ParsedColumn, clauses: seq<Clause>, a: ParsedColumn, b: ParsedColumn)
    requires Stated(before, clauses, a) && Stated(before, clauses, b)
    ensures a == b
  {
    if i: nat :| i < |clauses| && SaysNull(clauses[i]) {
      var last := SomeLastNull(clauses, i);
    }
    if i: nat :| i < |clauses| && SaysDefault(clauses[i]) {
      var last := SomeLastDefault(clauses, i);
    }
  }

  lemma {:induction false} TakenWhole(tokens: seq<Token>, r: seq<Token>, depth: nat)
    requires Contained(tokens, depth) && (r == [] || Ends(r[0], AFTER_TYPE))
    ensures TakeUntil(tokens + r, AFTER_TYPE, depth) == (tokens, r)
    decreases |tokens|
  {
    hide Ends, DepthAfter;
    if tokens == [] {
      assert tokens + r == r;
    } else {
      assert (tokens + r)[1..] == tokens[1..] + r;
      TakenWhole(tokens[1..], r, DepthAfter(tokens[0], depth));
      assert [tokens[0]] + tokens[1..] == tokens;
    }
  }

  lemma {:induction false} SkippedWhole(inside: seq<Token>, r: seq<Token>, depth: nat)
    requires Matched(inside, depth)
    ensures SkipInside(inside + [Punct(')')] + r, depth + 1) == r
    decreases |inside|
  {
    var all := inside + [Punct(')')] + r;
    if inside == [] {
      assert all == [Punct(')')] + r && all[1..] == r;
    } else {
      assert all[0] == inside[0] && all[1..] == inside[1..] + [Punct(')')] + r;
      if inside[0] == Punct('(') {
        SkippedWhole(inside[1..], r, depth + 1);
      } else if inside[0] == Punct(')') {
        SkippedWhole(inside[1..], r, depth - 1);
      } else {
        SkippedWhole(inside[1..], r, depth);
      }
    }
  }


  // ----- reading them -----

  /** What ends a column, or begins its reference. */
  predicate ColumnStops(r: seq<Token>) {
    r == [] || r[0] == Punct(',') || r[0] == Punct(')') || r[0] == Word("references")
  }

  /** What one clause does to the column read so far. */
  function Told(clause: Clause, c: ParsedColumn): ParsedColumn {
    match clause
    case NotNull => c.(nullable := false)
    case Null => c.(nullable := true)
    case PrimaryKey => c.(primaryKey := true, nullable := false)
    case Unique => c.(unique := true)
    case Default(expression) => if expression == [] then c else c.(defaultValue := Some(Render(expression)))
    case _ => c
  }

  function AllTold(clauses: seq<Clause>, c: ParsedColumn): ParsedColumn {
    if clauses == [] then c else AllTold(clauses[1..], Told(clauses[0], c))
  }

  lemma {:induction false} ToldBoth(a: seq<Clause>, b: seq<Clause>, c: ParsedColumn)
    ensures AllTold(a + b, c) == AllTold(b, AllTold(a, c))
  {
    hide Told;
    if a == [] {
      assert a + b == b;
    } else {
      assert (a + b)[1..] == a[1..] + b;
      ToldBoth(a[1..], b, Told(a[0], c));
    }
  }

  lemma LastNullBehind(clause: Clause, rest: seq<Clause>, i: nat)
    requires LastNull([clause] + rest, i)
    ensures if i == 0 then SaysNull(clause) && forall j :: 0 <= j < |rest| ==> !SaysNull(rest[j]) else LastNull(rest, i - 1)
  {
    hide SaysNull;
    assert forall j :: 0 <= j < |rest| ==> rest[j] == ([clause] + rest)[j + 1];
  }

  lemma LastDefaultBehind(clause: Clause, rest: seq<Clause>, i: nat)
    requires LastDefault([clause] + rest, i)
    ensures if i == 0 then SaysDefault(clause) && forall j :: 0 <= j < |rest| ==> !SaysDefault(rest[j]) else LastDefault(rest, i - 1)
  {
    hide SaysDefault;
    assert forall j :: 0 <= j < |rest| ==> rest[j] == ([clause] + rest)[j + 1];
  }

  lemma ToldStated(clause: Clause, rest: seq<Clause>, c: ParsedColumn, after: ParsedColumn)
    requires Stated(Told(clause, c), rest, after)
    ensures Stated(c, [clause] + rest, after)
  {
    hide Render, LastNull, LastDefault;
    var clauses := [clause] + rest;
    assert forall j :: 0 <= j < |rest| ==> rest[j] == clauses[j + 1];
    assert clauses[0] == clause;
    forall i: nat | LastNull(clauses, i)
      ensures i < |clauses| && (after.nullable <==> clauses[i].Null?)
    {
      LastNullBehind(clause, rest, i);
      if i > 0 {
        assert i - 1 < |rest| by {
          InRange(rest, i - 1);
        }
      }
    }
    forall i: nat | LastDefault(clauses, i)
      ensures i < |clauses| && SaysDefault(clauses[i]) && after.defaultValue == Some(Render(clauses[i].expression))
    {
      LastDefaultBehind(clause, rest, i);
      if i > 0 {
        assert i - 1 < |rest| && SaysDefault(rest[i - 1]) by {
          DefaultInRange(rest, i - 1);
        }
      }
    }
  }

  lemma InRange(clauses: seq<Clause>, i: nat)
    requires LastNull(clauses, i)
    ensures i < |clauses|
  {
  }

  lemma DefaultInRange(clauses: seq<Clause>, i: nat)
    requires LastDefault(clauses, i)
    ensures i < |clauses| && SaysDefault(clauses[i])
  {
  }

  lemma {:induction false} AllToldStated(clauses: seq<Clause>, c: ParsedColumn)
    ensures Stated(c, clauses, AllTold(clauses, c))
  {
    hide Told;
    if clauses != [] {
      AllToldStated(clauses[1..], Told(clauses[0], c));
      ToldStated(clauses[0], clauses[1..], c, AllTold(clauses, c));
      assert [clauses[0]] + clauses[1..] == clauses;
    }
  }

  /** A clause, or what ends them, also ends a default. */
  lemma ClauseEnds(clauses: seq<Clause>, r: seq<Token>)
    requires ColumnStops(r)
    ensures var all := Written(clauses) + r; all == [] || Ends(all[0], AFTER_TYPE)
  {
    var all := Written(clauses) + r;
    assert AFTER_TYPE[0] == "not" && AFTER_TYPE[1] == "null" && AFTER_TYPE[2] == "primary" && AFTER_TYPE[3] == "unique"
      && AFTER_TYPE[4] == "default" && AFTER_TYPE[5] == "references" && AFTER_TYPE[6] == "check" && AFTER_TYPE[7] == "constraint"
      && AFTER_TYPE[8] == "collate" && AFTER_TYPE[9] == "generated";
    if clauses == [] {
      assert all == r;
    } else {
      assert all[0] == Clausal(clauses[0])[0];
    }
  }

  lemma {:induction false} PassedRead(more: seq<Token>, r: seq<Token>, c: ParsedColumn)
    requires forall i :: 0 <= i < |more| ==> PassedOver(more[i])
    ensures Constraints(more + r, c) == Constraints(r, c)
    decreases |more|
  {
    var all := more + r;
    if more == [] {
      assert all == r;
    } else {
      assert all[0] == more[0] && all[1..] == more[1..] + r;
      assert PassedOver(more[0]);
      OnePassed(all, c);
      PassedRead(more[1..], r, c);
    }
  }

  lemma OnePassed(all: seq<Token>, c: ParsedColumn)
    requires all != [] && PassedOver(all[0])
    ensures Constraints(all, c) == Constraints(all[1..], c)
  {
    hide TakeUntil, SkipBalanced, Render;
    assert ["not", "null"][0] == "not" && ["primary", "key"][0] == "primary";
  }

  lemma PairRead(r: seq<Token>, c: ParsedColumn)
    ensures Constraints([Word("not"), Word("null")] + r, c) == Constraints(r, c.(nullable := false))
    ensures Constraints([Word("primary"), Word("key")] + r, c) == Constraints(r, c.(primaryKey := true, nullable := false))
  {
    var not, primary := [Word("not"), Word("null")] + r, [Word("primary"), Word("key")] + r;
    assert not[2..] == r && primary[2..] == r;
    assert AtWords(not, ["not", "null"]) && AtWords(primary, ["primary", "key"]);
    assert !AtWords(primary, ["not", "null"]) by {
      assert ["not", "null"][0] == "not";
    }
  }

  /** The word at the front is none that two words begin with. */
  lemma SingleWord(word: string, r: seq<Token>)
    requires word != "not" && word != "primary"
    ensures !AtWords([Word(word)] + r, ["not", "null"]) && !AtWords([Word(word)] + r, ["primary", "key"])
  {
    assert ["not", "null"][0] == "not" && ["primary", "key"][0] == "primary";
  }

  lemma FlagRead(r: seq<Token>, c: ParsedColumn)
    ensures Constraints([Word("null")] + r, c) == Constraints(r, c.(nullable := true))
    ensures Constraints([Word("unique")] + r, c) == Constraints(r, c.(unique := true))
  {
    SingleWord("null", r);
    SingleWord("unique", r);
    assert ([Word("null")] + r)[1..] == r && ([Word("unique")] + r)[1..] == r;
  }

  lemma DefaultClauseRead(expression: seq<Token>, r: seq<Token>, c: ParsedColumn)
    requires Contained(expression, 0) && (r == [] || Ends(r[0], AFTER_TYPE))
    ensures Constraints([Word("default")] + expression + r, c) == Constraints(r, Told(Default(expression), c))
  {
    hide TakeUntil, Contained, Ends, Render;
    var all := [Word("default")] + expression + r;
    assert all == [Word("default")] + (expression + r) && all[1..] == expression + r;
    SingleWord("default", expression + r);
    TakenWhole(expression, r, 0);
  }

  lemma CheckRead(inside: seq<Token>, r: seq<Token>, c: ParsedColumn)
    requires Matched(inside, 0)
    ensures Constraints([Word("check"), Punct('(')] + inside + [Punct(')')] + r, c) == Constraints(r, c)
  {
    hide SkipInside, Matched;
    var all := [Word("check"), Punct('(')] + inside + [Punct(')')] + r;
    var rest := [Punct('(')] + (inside + [Punct(')')] + r);
    assert all == [Word("check")] + rest && all[1..] == rest && rest[1..] == inside + [Punct(')')] + r;
    SingleWord("check", rest);
    SkippedWhole(inside, r, 0);
  }

  lemma NamedRead(name: Token, r: seq<Token>, c: ParsedColumn)
    ensures Constraints([Word("constraint"), name] + r, c) == Constraints(r, c)
  {
    var all := [Word("constraint"), name] + r;
    assert all == [Word("constraint")] + ([name] + r) && all[1..] == [name] + r && ([name] + r)[1..] == r;
    SingleWord("constraint", [name] + r);
  }

  lemma CollateRead(head: string, more: seq<Token>, r: seq<Token>, c: ParsedColumn)
    requires head == "collate" || head == "generated"
    requires forall i :: 0 <= i < |more| ==> PassedOver(more[i])
    ensures Constraints([Word(head)] + more + r, c) == Constraints(r, c)
  {
    hide Constraints;
    var all := [Word(head)] + more + r;
    assert all == [Word(head)] + (more + r) && all[1..] == more + r;
    OnePassed(all, c);
    PassedRead(more, r, c);
  }

  lemma ClauseRead(clause: Clause, r: seq<Token>, c: ParsedColumn)
    requires Readable(clause) && (r == [] || Ends(r[0], AFTER_TYPE))
    ensures Constraints(Clausal(clause) + r, c) == Constraints(r, Told(clause, c))
  {
    hide Constraints, Contained, Matched, Ends, PassedOver, Render;
    match clause {
      case NotNull => PairRead(r, c);
      case Null => FlagRead(r, c);
      case PrimaryKey => PairRead(r, c);
      case Unique => FlagRead(r, c);
      case Default(expression) => DefaultClauseRead(expression, r, c);
      case Check(inside) => CheckRead(inside, r, c);
      case Constraint(name) => NamedRead(name, r, c);
      case Collate(more) => CollateRead("collate", more, r, c);
      case Generated(more) => CollateRead("generated", more, r, c);
    }
  }

  lemma StopsRead(r: seq<Token>, c: ParsedColumn)
    requires ColumnStops(r)
    ensures Constraints(r, c) == (r, c)
  {
  }

  lemma {:induction false} ClausesTold(clauses: seq<Clause>, r: seq<Token>, c: ParsedColumn)
    requires AllReadable(clauses) && ColumnStops(r)
    ensures Constraints(Written(clauses) + r, c) == (r, AllTold(clauses, c))
    decreases |clauses|
  {
    hide Constraints, Told, Readable, Clausal, ColumnStops;
    if clauses == [] {
      assert Written(clauses) + r == r;
      StopsRead(r, c);
    } else {
      var rest := Written(clauses[1..]) + r;
      assert Written(clauses) + r == Clausal(clauses[0]) + rest;
      ClauseEnds(clauses[1..], r);
      ClauseRead(clauses[0], rest, c);
      ClausesTold(clauses[1..], r, Told(clauses[0], c));
    }
  }

  /** Every clause after a column's type is taken, in any order and number, and
      the column is what they say. */
  lemma ClausesRead(clauses: seq<Clause>, r: seq<Token>, c: ParsedColumn)
    requires AllReadable(clauses) && ColumnStops(r)
    ensures var (left, after) := Constraints(Written(clauses) + r, c);
            left == r && Stated(c, clauses, after)
  {
    hide Constraints, Stated, AllTold;
    ClausesTold(clauses, r, c);
    AllToldStated(clauses, c);
  }

  // ----- whole columns -----

  predicate IsTypeOf(words: seq<Token>, kind: DataTypeKind) {
    && (forall i :: 0 <= i < |words| ==> words[i].Word? && IsTypeWord(words[i]))
    && JoinWords(NameTexts(words)) in Spellings(kind)
  }

  /** `name type(parameters) clauses`. */
  function ColumnText(column: Token, words: seq<Token>, t: DataType, clauses: seq<Clause>): seq<Token> {
    [column] + words + ParameterTokens(t) + Written(clauses)
  }

  /** The column before its clauses: a serial one is NOT NULL already. */
  function Untold(column: Token, words: seq<Token>, t: DataType): ParsedColumn {
    ParsedColumn(NameText(column), ShownType(t), JoinWords(NameTexts(words)) !in SERIALS, false, false, None)
  }

  predicate IsColumn(column: Token, words: seq<Token>, t: DataType, clauses: seq<Clause>) {
    IsName(column) && IsTypeOf(words, t.kind) && AllReadable(clauses)
  }

  lemma NoTypeAhead(clauses: seq<Clause>, r: seq<Token>)
    requires ColumnStops(r)
    ensures NoTypeWordAhead(Written(clauses) + r) && NoParenAhead(Written(clauses) + r)
  {
    var all := Written(clauses) + r;
    ClauseEnds(clauses, r);
    if clauses == [] {
      assert all == r;
    } else {
      assert all[0] == Clausal(clauses[0])[0];
    }
  }

  lemma SerialIs(name: string)
    ensures IsSerial(name) <==> name in SERIALS
  {
  }

  lemma TypeRead(words: seq<Token>, t: DataType, r: seq<Token>)
    requires IsTypeOf(words, t.kind) && NoTypeWordAhead(r) && NoParenAhead(r)
    ensures var (read, left) := TypeWords(words + ParameterTokens(t) + r);
            && read == NameTexts(words) && KindOf(JoinWords(read)) == Some(t.kind)
            && Parameters(left).1 == r && TypeFrom(t.kind, Parameters(left).0) == ShownType(t)
  {
    hide TypeWords, Parameters, KindOf, Spellings, JoinWords, ParameterTokens, ShownType;
    assert words + ParameterTokens(t) + r == words + (ParameterTokens(t) + r);
    ParametersAhead(t, r);
    TypeWordsAre(words, ParameterTokens(t) + r);
    assert WordsOf(words) == NameTexts(words);
    KindOfIff(JoinWords(NameTexts(words)), t.kind);
    ParametersRead(t, r);
  }

  lemma ColumnTold(column: Token, words: seq<Token>, t: DataType, clauses: seq<Clause>, r: seq<Token>)
    requires IsColumn(column, words, t, clauses) && ColumnStops(r)
    ensures Column(ColumnText(column, words, t, clauses) + r) == (Read(AllTold(clauses, Untold(column, words, t))), r)
  {
    hide Constraints, TypeWords, Parameters, KindOf, IsSerial, JoinWords, Written, ParameterTokens, AllTold, TypeFrom, ShownType, Spellings, IsTypeOf;
    var rest := Written(clauses) + r;
    var all := ColumnText(column, words, t, clauses) + r;
    assert all == [column] + (words + ParameterTokens(t) + rest);
    assert all[0] == column && all[1..] == words + ParameterTokens(t) + rest;
    NoTypeAhead(clauses, r);
    TypeRead(words, t, rest);
    SerialIs(JoinWords(NameTexts(words)));
    ClausesTold(clauses, r, Untold(column, words, t));
  }

  /** A column is read with its name, the type its words name, with its
      parameters, and what its clauses say. */
  lemma ColumnIsStated(column: Token, words: seq<Token>, t: DataType, clauses: seq<Clause>, r: seq<Token>)
    requires IsColumn(column, words, t, clauses) && ColumnStops(r)
    ensures var (read, left) := Column(ColumnText(column, words, t, clauses) + r);
            && left == r && read.Read?
            && Stated(ParsedColumn(NameText(column), ShownType(t), JoinWords(NameTexts(words)) !in SERIALS, false, false, None), clauses, read.column)
  {
    hide Column, Stated, IsColumn, ColumnText, AllTold, ShownType, JoinWords;
    ColumnTold(column, words, t, clauses, r);
    AllToldStated(clauses, Untold(column, words, t));
  }

  // ----- the keys a table names later -----

  /** `name` names column `i`: it is the first of that name up to case. */
  predicate Names(columns: seq<ParsedColumn>, name: string, i: nat) {
    i < |columns| && Same(columns[i].name, name) && forall j :: 0 <= j < i ==> !Same(columns[j].name, name)
  }

  lemma FoundIs(columns: seq<ParsedColumn>, name: string, i: nat)
    ensures FindColumn(columns, name) == Some(i) <==> Names(columns, name, i)
  {
    hide Lower;
    var p := (c: ParsedColumn) => Same(c.name, name);
    assert FindColumn(columns, name) == First(columns, p);
    assert forall c :: p(c) <==> Same(c.name, name);
    if Names(columns, name, i) {
      FirstIs(columns, p, i);
    }
  }

  ghost predicate NamedByOne(columns: seq<ParsedColumn>, names: seq<string>, i: nat) {
    exists k :: 0 <= k < |names| && Names(columns, names[k], i)
  }

  lemma NamesStay(a: seq<ParsedColumn>, b: seq<ParsedColumn>, name: string, i: nat)
    requires |a| == |b| && forall j :: 0 <= j < |a| ==> a[j].name == b[j].name
    ensures Names(a, name, i) <==> Names(b, name, i)
  {
    hide Lower;
  }

  /** PRIMARY KEY of a table makes key columns, not nullable, of the ones it
      names, and touches nothing else. */
  lemma {:induction false} MarkedAre(columns: seq<ParsedColumn>, names: seq<string>, i: nat)
    requires i < |columns|
    ensures MarkPrimary(columns, names)[i]
      == if NamedByOne(columns, names, i) then columns[i].(primaryKey := true, nullable := false) else columns[i]
    decreases |names|
  {
    hide FindColumn, Names;
    if names != [] {
      var found := FindColumn(columns, names[0]);
      var next := if found.None? then columns else columns[found.value := columns[found.value].(primaryKey := true, nullable := false)];
      FoundIs(columns, names[0], i);
      MarkedAre(next, names[1..], i);
      forall k | 0 <= k < |names|
        ensures Names(columns, names[k], i) <==> Names(next, names[k], i)
      {
        NamesStay(columns, next, names[k], i);
      }
      if NamedByOne(columns, names, i) {
        var k :| 0 <= k < |names| && Names(columns, names[k], i);
        assert k > 0 ==> names[1..][k - 1] == names[k];
      }
      if NamedByOne(next, names[1..], i) {
        var k :| 0 <= k < |names[1..]| && Names(next, names[1..][k], i);
        assert names[k + 1] == names[1..][k];
      }
    }
  }

  lemma UniqueIs(columns: seq<ParsedColumn>, name: string, i: nat)
    requires i < |columns|
    ensures MarkUnique(columns, name)[i] == if Names(columns, name, i) then columns[i].(unique := true) else columns[i]
  {
    hide FindColumn, Names;
    FoundIs(columns, name, i);
  }
}
