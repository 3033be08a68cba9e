/** The three ways a script writes a foreign key of one column: on the column,
    in its table, and added to the table later. */
module KeyClauses {
  import opened Options
  import opened Domain
  import opened Scanning
  import opened Cursors
  import opened TableParser
  import opened ParseTable
  import opened ColumnClauses
  import opened Statements
  import opened SqlReader
  import Rendering

  // ----- how names are written -----

  predicate AreNames(ts: seq<Token>) {
    forall i :: 0 <= i < |ts| ==> IsName(ts[i])
  }

  /** `.b.c` behind the first part of a name. */
  function FurtherParts(parts: seq<Token>): seq<Token> {
    if parts == [] then [] else [Punct('.'), parts[0]] + FurtherParts(parts[1..])
  }

  function FurtherText(parts: seq<Token>): string {
    if parts == [] then "" else "." + NameText(parts[0]) + FurtherText(parts[1..])
  }

  /** `a.b.c` as tokens, and as the one name it is. */
  function Dotted(parts: seq<Token>): seq<Token> {
    if parts == [] then [] else [parts[0]] + FurtherParts(parts[1..])
  }

  function DottedText(parts: seq<Token>): string {
    if parts == [] then "" else NameText(parts[0]) + FurtherText(parts[1..])
  }

  /** `a, b, c)`. */
  function ListEnd(names: seq<Token>): seq<Token> {
    if names == [] then [Punct(')')]
    else if |names| == 1 then [names[0], Punct(')')]
    else [names[0], Punct(',')] + ListEnd(names[1..])
  }

  function Listed(names: seq<Token>): seq<Token> {
    [Punct('(')] + ListEnd(names)
  }

  /** What may stand behind a name: no dot, and no list. */
  predicate NameEnds(r: seq<Token>) {
    !AtPunct(r, '.') && !AtPunct(r, '(')
  }

  lemma MoreStep(name: string, part: Token, r: seq<Token>)
    requires IsName(part)
    ensures MoreName(name, [Punct('.'), part] + r) == MoreName(name + "." + NameText(part), r)
  {
    assert ([Punct('.'), part] + r)[2..] == r;
  }

  lemma FurtherSplit(parts: seq<Token>, r: seq<Token>)
    requires parts != []
    ensures FurtherParts(parts) + r == [Punct('.'), parts[0]] + (FurtherParts(parts[1..]) + r)
  {
  }

  lemma FurtherTextSplit(name: string, parts: seq<Token>)
    requires parts != []
    ensures name + FurtherText(parts) == name + "." + NameText(parts[0]) + FurtherText(parts[1..])
  {
    hide NameText;
  }

  lemma FurtherNothing(name: string, r: seq<Token>)
    ensures FurtherParts([]) + r == r && name + FurtherText([]) == name
  {
  }

  lemma {:induction false} MoreRead(name: string, parts: seq<Token>, r: seq<Token>)
    requires AreNames(parts) && !AtPunct(r, '.')
    ensures MoreName(name, FurtherParts(parts) + r) == (Some(name + FurtherText(parts)), r)
    decreases |parts|
  {
    hide MoreName, NameText, IsName, FurtherParts, FurtherText, AtPunct;
    if parts == [] {
      FurtherNothing(name, r);
      NothingMore(name, r);
    } else {
      FurtherSplit(parts, r);
      FurtherTextSplit(name, parts);
      MoreStep(name, parts[0], FurtherParts(parts[1..]) + r);
      MoreRead(name + "." + NameText(parts[0]), parts[1..], r);
    }
  }

  lemma NameAhead(part: Token, r: seq<Token>)
    requires IsName(part)
    ensures QualifiedName([part] + r) == MoreName(NameText(part), r)
  {
    hide MoreName;
    assert ([part] + r)[1..] == r;
  }

  lemma DottedRead(parts: seq<Token>, r: seq<Token>)
    requires AreNames(parts) && parts != [] && !AtPunct(r, '.')
    ensures QualifiedName(Dotted(parts) + r) == (Some(DottedText(parts)), r)
  {
    hide MoreName, QualifiedName, FurtherParts, FurtherText, IsName, NameText;
    assert Dotted(parts) + r == [parts[0]] + (FurtherParts(parts[1..]) + r);
    NameAhead(parts[0], FurtherParts(parts[1..]) + r);
    MoreRead(NameText(parts[0]), parts[1..], r);
  }

  lemma NothingMore(name: string, r: seq<Token>)
    requires !AtPunct(r, '.')
    ensures MoreName(name, r) == (Some(name), r)
  {
  }

  lemma ListStep(read: seq<string>, name: Token, r: seq<Token>)
    requires IsName(name)
    ensures NamesAfter(read, [name, Punct(',')] + r) == NamesAfter(read + [NameText(name)], r)
    ensures NamesAfter(read, [name, Punct(')')] + r) == (Some(read + [NameText(name)]), r)
  {
    assert ([name, Punct(',')] + r)[1..] == [Punct(',')] + r && ([Punct(',')] + r)[1..] == r;
    assert ([name, Punct(')')] + r)[1..] == [Punct(')')] + r && ([Punct(')')] + r)[1..] == r;
  }

  lemma {:induction false} ListRead(read: seq<string>, names: seq<Token>, r: seq<Token>)
    requires AreNames(names) && names != []
    ensures NamesAfter(read, ListEnd(names) + r) == (Some(read + NameTexts(names)), r)
    decreases |names|
  {
    hide NamesAfter, NameText, IsName;
    if |names| == 1 {
      assert ListEnd(names) + r == [names[0], Punct(')')] + r;
      ListStep(read, names[0], r);
      assert NameTexts(names) == [NameText(names[0])];
    } else {
      assert ListEnd(names) + r == [names[0], Punct(',')] + (ListEnd(names[1..]) + r);
      ListStep(read, names[0], ListEnd(names[1..]) + r);
      ListRead(read + [NameText(names[0])], names[1..], r);
      assert read + [NameText(names[0])] + NameTexts(names[1..]) == read + NameTexts(names);
    }
  }

  lemma ListedRead(names: seq<Token>, r: seq<Token>)
    requires AreNames(names) && names != []
    ensures NameList(Listed(names) + r) == (Some(NameTexts(names)), r)
  {
    hide NamesAfter, ListEnd;
    assert (Listed(names) + r)[1..] == ListEnd(names) + r;
    ListRead([], names, r);
    assert [] + NameTexts(names) == NameTexts(names);
  }

  // ----- the clause -----

  /** `t` or `t (k, ...)`. */
  function Target(table: seq<Token>, keys: seq<Token>): seq<Token> {
    Dotted(table) + (if keys == [] then [] else Listed(keys))
  }

  function References(table: seq<Token>, keys: seq<Token>): seq<Token> {
    [Word("references")] + Target(table, keys)
  }

  /** The key that is meant: without a column, the table's own key; with
      several, the first. */
  function Meant(column: string, table: seq<Token>, keys: seq<Token>): ParsedForeignKey {
    ParsedForeignKey(column, DottedText(table), if keys == [] then None else Some(NameText(keys[0])))
  }

  predicate IsTarget(table: seq<Token>, keys: seq<Token>) {
    AreNames(table) && table != [] && AreNames(keys)
  }

  lemma TargetRead(table: seq<Token>, keys: seq<Token>, r: seq<Token>)
    requires IsTarget(table, keys) && NameEnds(r)
    ensures var (name, left) := QualifiedName(Target(table, keys) + r);
            && name == Some(DottedText(table))
            && NameList(left).1 == r
            && TargetOf(NameList(left).0) == if keys == [] then None else Some(NameText(keys[0]))
  {
    hide QualifiedName, NameList, Dotted, Listed;
    if keys == [] {
      assert Target(table, keys) + r == Dotted(table) + r;
      DottedRead(table, r);
      NoList(r);
    } else {
      assert Target(table, keys) + r == Dotted(table) + (Listed(keys) + r);
      ListOpens(keys, r);
      DottedRead(table, Listed(keys) + r);
      ListedRead(keys, r);
      assert NameTexts(keys)[0] == NameText(keys[0]);
    }
  }

  lemma NoList(r: seq<Token>)
    requires !AtPunct(r, '(')
    ensures NameList(r) == (None, r)
  {
  }

  lemma ListOpens(keys: seq<Token>, r: seq<Token>)
    ensures !AtPunct(Listed(keys) + r, '.') && !AtWord(Listed(keys) + r, "references")
  {
    assert (Listed(keys) + r)[0] == Punct('(');
  }

  lemma InlineRead(column: string, table: seq<Token>, keys: seq<Token>, r: seq<Token>, parsed: ParsedTable)
    requires IsTarget(table, keys) && NameEnds(r)
    ensures InlineReference(References(table, keys) + r, column, parsed)
      == (true, r, parsed.(foreignKeys := parsed.foreignKeys + [Meant(column, table, keys)]))
  {
    hide QualifiedName, NameList, Target;
    assert (References(table, keys) + r)[1..] == Target(table, keys) + r;
    TargetRead(table, keys, r);
  }

  lemma TableKeyRead(columns: seq<Token>, table: seq<Token>, keys: seq<Token>, r: seq<Token>, parsed: ParsedTable)
    requires IsTarget(table, keys) && NameEnds(r) && AreNames(columns) && columns != []
    ensures TableForeignKey(Listed(columns) + References(table, keys) + r, parsed)
      == if |columns| == 1 then
           (TakeUntil(r, [], 0).1, parsed.(foreignKeys := parsed.foreignKeys + [Meant(NameText(columns[0]), table, keys)]))
         else (r, parsed.Skip(WideForeignKey))
  {
    hide QualifiedName, NameList, Target, Listed, TakeUntil;
    var rest := References(table, keys) + r;
    assert Listed(columns) + References(table, keys) + r == Listed(columns) + rest;
    ListedRead(columns, rest);
    assert rest[1..] == Target(table, keys) + r;
    TargetRead(table, keys, r);
    assert NameTexts(columns)[0] == NameText(columns[0]);
  }

  lemma LateKeyRead(columns: seq<Token>, table: seq<Token>, keys: seq<Token>, r: seq<Token>)
    requires IsTarget(table, keys) && NameEnds(r) && AreNames(columns) && columns != []
    ensures KeyClause([Word("foreign"), Word("key")] + (Listed(columns) + References(table, keys) + r))
      == if |columns| == 1 then Some(Meant(NameText(columns[0]), table, keys)) else None
  {
    hide QualifiedName, NameList, Target, Listed;
    var rest := References(table, keys) + r;
    var all := [Word("foreign"), Word("key")] + (Listed(columns) + References(table, keys) + r);
    assert AtWords(all, ["foreign", "key"]);
    assert all[2..] == Listed(columns) + rest;
    ListedRead(columns, rest);
    assert rest[1..] == Target(table, keys) + r;
    TargetRead(table, keys, r);
    assert NameTexts(columns)[0] == NameText(columns[0]);
  }

  // ----- columns -----

  /** A name that does not begin another kind of item. */
  predicate IsColumnName(t: Token) {
    IsName(t) && (t.Word? ==> t.word !in ["constraint", "primary", "foreign", "unique", "check", "exclude"])
  }

  lemma ColumnItemIs(column: Token, rest: seq<Token>, parsed: ParsedTable)
    requires IsColumnName(column)
    ensures Item([column] + rest, parsed) == ColumnItem([column] + rest, parsed)
  {
    hide ColumnItem, TableKey, TableForeignKey, TableUnique, SkipBalanced, TakeUntil;
    var all := [column] + rest;
    assert all[0] == column;
    assert !AtWord(all, "constraint") && !AtWord(all, "unique") && !AtWord(all, "check") && !AtWord(all, "exclude") by {
      var others := ["constraint", "primary", "foreign", "unique", "check", "exclude"];
      assert others[0] in others && others[3] in others && others[4] in others && others[5] in others;
    }
    assert !AtWords(all, ["primary", "key"]) && !AtWords(all, ["foreign", "key"]) by {
      assert ["primary", "key"][0] == "primary" && ["foreign", "key"][0] == "foreign";
      var others := ["constraint", "primary", "foreign", "unique", "check", "exclude"];
      assert others[1] in others && others[2] in others;
    }
  }

  lemma NoReference(r: seq<Token>, column: string, parsed: ParsedTable)
    requires !AtWord(r, "references")
    ensures InlineReference(r, column, parsed) == (false, r, parsed)
  {
  }

  lemma ColumnFirst(column: Token, words: seq<Token>, t: DataType, clauses: seq<Clause>, r: seq<Token>)
    ensures var all := ColumnText(column, words, t, clauses) + r; all != [] && all == [column] + all[1..]
  {
  }

  lemma PlainItemRead(column: Token, words: seq<Token>, t: DataType, clauses: seq<Clause>, r: seq<Token>, parsed: ParsedTable)
    requires IsColumnName(column) && IsColumn(column, words, t, clauses) && ColumnStops(r) && !AtWord(r, "references")
    ensures Item(ColumnText(column, words, t, clauses) + r, parsed)
      == (r, parsed.(columns := parsed.columns + [AllTold(clauses, Untold(column, words, t))]))
  {
    hide Item, Column, IsColumn, AllTold, Untold, ColumnText, Constraints;
    ColumnFirst(column, words, t, clauses, r);
    ColumnItemIs(column, (ColumnText(column, words, t, clauses) + r)[1..], parsed);
    ColumnTold(column, words, t, clauses, r);
    NoReference(r, AllTold(clauses, Untold(column, words, t)).name, parsed);
  }

  lemma {:induction false} NameIsKept(clauses: seq<Clause>, c: ParsedColumn)
    ensures AllTold(clauses, c).name == c.name
  {
    if clauses != [] {
      NameIsKept(clauses[1..], Told(clauses[0], c));
    }
  }

  lemma ClausesAfterName(clauses: seq<Clause>, r: seq<Token>)
    requires ColumnStops(r)
    ensures NameEnds(Written(clauses) + r)
  {
    NoTypeAhead(clauses, r);
    if clauses == [] {
      assert Written(clauses) + r == r;
    } else {
      assert (Written(clauses) + r)[0] == Clausal(clauses[0])[0];
    }
  }

  /** A column with its reference, clauses standing on either side of it. */
  function ReferringText(column: Token, words: seq<Token>, t: DataType, before: seq<Clause>, table: seq<Token>, keys: seq<Token>, after: seq<Clause>): seq<Token> {
    ColumnText(column, words, t, before) + References(table, keys) + Written(after)
  }

  lemma ReferringItemRead(column: Token, words: seq<Token>, t: DataType, before: seq<Clause>, table: seq<Token>, keys: seq<Token>, after: seq<Clause>, r: seq<Token>, parsed: ParsedTable)
    requires IsColumnName(column) && IsColumn(column, words, t, before + after) && IsTarget(table, keys)
    requires ColumnStops(r) && !AtWord(r, "references")
    ensures Item(ReferringText(column, words, t, before, table, keys, after) + r, parsed)
      == (r, parsed.(columns := parsed.columns + [AllTold(before + after, Untold(column, words, t))],
                     foreignKeys := parsed.foreignKeys + [Meant(NameText(column), table, keys)]))
  {
    hide Item, Column, IsTypeOf, IsTarget, InlineReference, Constraints, Target, AllTold, ColumnText, Written, Meant, ShownType, JoinWords;
    var tail := Written(after) + r;
    var rest := References(table, keys) + tail;
    var c := AllTold(before, Untold(column, words, t));
    assert ReferringText(column, words, t, before, table, keys, after) + r == ColumnText(column, words, t, before) + rest;
    ColumnFirst(column, words, t, before, rest);
    ColumnItemIs(column, (ColumnText(column, words, t, before) + rest)[1..], parsed);
    assert rest[0] == Word("references");
    BothReadable(before, after);
    ColumnTold(column, words, t, before, rest);
    NameIsKept(before, Untold(column, words, t));
    ClausesAfterName(after, r);
    InlineRead(NameText(column), table, keys, tail, parsed);
    ClausesTold(after, r, c);
    ToldBoth(before, after, Untold(column, words, t));
  }

  lemma BothReadable(before: seq<Clause>, after: seq<Clause>)
    requires AllReadable(before + after)
    ensures AllReadable(before) && AllReadable(after)
  {
    hide Readable;
    forall i | 0 <= i < |before|
      ensures Readable(before[i])
    {
      assert (before + after)[i] == before[i];
    }
    forall i | 0 <= i < |after|
      ensures Readable(after[i])
    {
      assert (before + after)[|before| + i] == after[i];
    }
  }

  // ----- whole statements -----

  /** `CREATE TABLE holder (` items `)`. */
  function Created(holder: seq<Token>, items: seq<Token>): seq<Token> {
    [Word("create"), Word("table")] + Dotted(holder) + [Punct('(')] + items + [Punct(')')]
  }

  function OnColumn(holder: seq<Token>, column: Token, words: seq<Token>, t: DataType, before: seq<Clause>, table: seq<Token>, keys: seq<Token>, after: seq<Clause>): seq<Token> {
    Created(holder, ReferringText(column, words, t, before, table, keys, after))
  }

  function KeyText(column: Token, table: seq<Token>, keys: seq<Token>): seq<Token> {
    [Word("foreign"), Word("key")] + Listed([column]) + References(table, keys)
  }

  function InTable(holder: seq<Token>, column: Token, words: seq<Token>, t: DataType, clauses: seq<Clause>, table: seq<Token>, keys: seq<Token>): seq<Token> {
    Created(holder, ColumnText(column, words, t, clauses) + [Punct(',')] + KeyText(column, table, keys))
  }

  /** `ALTER TABLE [IF EXISTS] [ONLY] holder ADD [CONSTRAINT name] FOREIGN KEY
      (column) REFERENCES ...`. */
  function Later(holder: seq<Token>, ifExists: bool, only: bool, constraint: Option<Token>, column: Token, table: seq<Token>, keys: seq<Token>): seq<Token> {
    [Word("alter"), Word("table")] + (AlterOptions(ifExists, only)
      + (Dotted(holder) + AddTail(constraint, [Word("foreign"), Word("key")] + (Listed([column]) + References(table, keys) + []))))
  }

  lemma HeadRead(rest: seq<Token>, name: string, inner: seq<Token>)
    requires QualifiedName(rest) == (Some(name), [Punct('(')] + inner) && !AtWords(rest, ["if", "not", "exists"])
    ensures Parsed([Word("create"), Word("table")] + rest) == Some(Items(inner, ParsedTable(name, [], [], [])))
  {
    hide Items, QualifiedName, SkipToTable, AtWords;
    var all := [Word("create"), Word("table")] + rest;
    assert all[1..] == [Word("table")] + rest && all[1..][1..] == rest;
    assert ([Punct('(')] + inner)[1..] == inner;
    TableReached(all[1..]);
  }

  lemma CreatedRead(holder: seq<Token>, items: seq<Token>)
    requires AreNames(holder) && holder != []
    ensures Parsed(Created(holder, items)) == Some(Items(items + [Punct(')')], ParsedTable(DottedText(holder), [], [], [])))
  {
    hide Items, QualifiedName, Parsed, Dotted, IsName, AtWords;
    var after := [Punct('(')] + (items + [Punct(')')]);
    assert Created(holder, items) == [Word("create"), Word("table")] + (Dotted(holder) + after);
    DottedRead(holder, after);
    NotIfNot(holder, after);
    HeadRead(Dotted(holder) + after, DottedText(holder), items + [Punct(')')]);
  }

  lemma NotIfNot(holder: seq<Token>, after: seq<Token>)
    requires holder != [] && after != [] && !after[0].Word?
    ensures !AtWords(Dotted(holder) + after, ["if", "not", "exists"])
  {
    var all := Dotted(holder) + after;
    assert ["if", "not", "exists"][1] == "not";
    if |holder| == 1 {
      assert all[1] == after[0];
    } else {
      assert all[1] == Punct('.');
    }
  }

  lemma OneItem(items: seq<Token>, parsed: ParsedTable, after: ParsedTable)
    requires items != [] && !AtPunct(items, ')') && Item(items + [Punct(')')], parsed) == ([Punct(')')], after)
    ensures Items(items + [Punct(')')], parsed) == after
  {
    hide Item;
    assert (items + [Punct(')')])[0] == items[0];
  }

  lemma TwoItems(first: seq<Token>, second: seq<Token>, parsed: ParsedTable, middle: ParsedTable, after: ParsedTable)
    requires first != [] && !AtPunct(first, ')') && second != [] && !AtPunct(second, ')')
    requires Item(first + ([Punct(',')] + (second + [Punct(')')])), parsed) == ([Punct(',')] + (second + [Punct(')')]), middle)
    requires Item(second + [Punct(')')], middle) == ([Punct(')')], after)
    ensures Items(first + [Punct(',')] + second + [Punct(')')], parsed) == after
  {
    hide Item;
    var tail := [Punct(',')] + (second + [Punct(')')]);
    assert first + [Punct(',')] + second + [Punct(')')] == first + tail;
    assert (first + tail)[0] == first[0];
    assert tail[1..] == second + [Punct(')')];
    OneItem(second, middle, after);
  }

  /** A table of one column and one key. */
  function OneColumn(holder: seq<Token>, column: ParsedColumn, key: ParsedForeignKey): ParsedTable {
    ParsedTable(DottedText(holder), [column], [key], [])
  }

  lemma OnColumnRead(holder: seq<Token>, column: Token, words: seq<Token>, t: DataType, before: seq<Clause>, table: seq<Token>, keys: seq<Token>, after: seq<Clause>)
    requires AreNames(holder) && holder != [] && IsColumnName(column) && IsColumn(column, words, t, before + after) && IsTarget(table, keys)
    ensures Parsed(OnColumn(holder, column, words, t, before, table, keys, after))
      == Some(OneColumn(holder, AllTold(before + after, Untold(column, words, t)), Meant(NameText(column), table, keys)))
  {
    hide Items, Item, Parsed, Created, IsColumn, IsTarget, References, Untold, AllTold, Meant, Written, ColumnText;
    var items := ReferringText(column, words, t, before, table, keys, after);
    var empty := ParsedTable(DottedText(holder), [], [], []);
    var c, key := AllTold(before + after, Untold(column, words, t)), Meant(NameText(column), table, keys);
    CreatedRead(holder, items);
    ReferringItemRead(column, words, t, before, table, keys, after, [Punct(')')], empty);
    ColumnFirst(column, words, t, before, []);
    assert ColumnText(column, words, t, before) + [] == ColumnText(column, words, t, before);
    assert items[0] == column;
    assert [] + [c] == [c] && [] + [key] == [key];
    OneItem(items, empty, OneColumn(holder, c, key));
  }

  lemma KeyWords(rest: seq<Token>)
    ensures var all := [Word("foreign"), Word("key")] + rest;
            all[2..] == rest && AtWords(all, ["foreign", "key"]) && !AtWords(all, ["primary", "key"]) && !AtWord(all, "constraint")
  {
    assert ["primary", "key"][0] == "primary";
  }

  lemma KeyItemIs(columns: seq<Token>, table: seq<Token>, keys: seq<Token>, r: seq<Token>, parsed: ParsedTable)
    requires IsTarget(table, keys) && NameEnds(r) && AreNames(columns) && columns != []
    ensures Item([Word("foreign"), Word("key")] + Listed(columns) + References(table, keys) + r, parsed)
      == TableForeignKey(Listed(columns) + References(table, keys) + r, parsed)
  {
    hide TableForeignKey, TableKey, TableUnique, ColumnItem, SkipBalanced, TakeUntil, Listed, References, AtWords, AtWord, IsTarget, AreNames;
    var rest := Listed(columns) + References(table, keys) + r;
    assert [Word("foreign"), Word("key")] + Listed(columns) + References(table, keys) + r == [Word("foreign"), Word("key")] + rest;
    KeyWords(rest);
  }

  lemma InTableRead(holder: seq<Token>, column: Token, words: seq<Token>, t: DataType, clauses: seq<Clause>, table: seq<Token>, keys: seq<Token>)
    requires AreNames(holder) && holder != [] && IsColumnName(column) && IsColumn(column, words, t, clauses) && IsTarget(table, keys)
    ensures Parsed(InTable(holder, column, words, t, clauses, table, keys))
      == Some(OneColumn(holder, AllTold(clauses, Untold(column, words, t)), Meant(NameText(column), table, keys)))
  {
    hide Items, Item, Parsed, Created, IsColumn, IsTarget, References, Untold, AllTold, Meant, Written, ColumnText, Listed, TableForeignKey;
    var first, second := ColumnText(column, words, t, clauses), KeyText(column, table, keys);
    var empty, c, key := ParsedTable(DottedText(holder), [], [], []), AllTold(clauses, Untold(column, words, t)), Meant(NameText(column), table, keys);
    var middle := empty.(columns := [c]);
    CreatedRead(holder, first + [Punct(',')] + second);
    PlainItemRead(column, words, t, clauses, [Punct(',')] + (second + [Punct(')')]), empty);
    assert [] + [c] == [c] && [] + [key] == [key];
    KeyItemIs([column], table, keys, [Punct(')')], middle);
    TableKeyRead([column], table, keys, [Punct(')')], middle);
    ParenStops();
    ColumnFirst(column, words, t, clauses, []);
    assert first + [] == first;
    assert first[0] == column && second[0] == Word("foreign");
    TwoItems(first, second, empty, middle, OneColumn(holder, c, key));
  }

  lemma ParenStops()
    ensures TakeUntil([Punct(')')], [], 0) == ([], [Punct(')')])
  {
  }

  function AddTail(constraint: Option<Token>, clause: seq<Token>): seq<Token> {
    [Word("add")] + (match constraint case None => [] case Some(name) => [Word("constraint"), name]) + clause
  }

  lemma AddTailRead(holder: string, constraint: Option<Token>, clause: seq<Token>)
    requires clause != [] && clause[0] == Word("foreign")
    ensures var tail := AddTail(constraint, clause);
            && AtWord(tail, "add") && !AtPunct(tail, '.')
            && (if AtWord(tail[1..], "constraint") then Next(tail[1..][1..]) else tail[1..]) == clause
  {
    match constraint {
      case None =>
        assert AddTail(constraint, clause)[1..] == clause;
      case Some(name) =>
        assert AddTail(constraint, clause)[1..] == [Word("constraint"), name] + clause;
        assert ([Word("constraint"), name] + clause)[1..] == [name] + clause;
        assert ([name] + clause)[1..] == clause;
    }
  }

  function AlterOptions(ifExists: bool, only: bool): seq<Token> {
    (if ifExists then [Word("if"), Word("exists")] else []) + (if only then [Word("only")] else [])
  }

  lemma OptionsRead(ifExists: bool, only: bool, rest: seq<Token>)
    requires !AtWords(rest, ["if", "exists"]) && !AtWord(rest, "only")
    ensures var all := AlterOptions(ifExists, only) + rest;
            Eaten(if AtWords(all, ["if", "exists"]) then all[2..] else all, "only") == rest
  {
    var all := AlterOptions(ifExists, only) + rest;
    var onlyRest := (if only then [Word("only")] else []) + rest;
    if ifExists {
      assert AtWords(all, ["if", "exists"]) && all[2..] == onlyRest;
    } else {
      assert all == onlyRest;
      assert only ==> !AtWords(all, ["if", "exists"]) by {
        assert ["if", "exists"][0] == "if";
      }
    }
    if only {
      assert onlyRest[1..] == rest;
    } else {
      assert onlyRest == rest;
    }
  }

  lemma LaterHeadRead(holder: seq<Token>, ifExists: bool, only: bool, constraint: Option<Token>, clause: seq<Token>)
    requires AreNames(holder) && holder != [] && holder[0] != Word("only")
    requires clause != [] && clause[0] == Word("foreign")
    ensures AlterHead([Word("alter"), Word("table")] + (AlterOptions(ifExists, only) + (Dotted(holder) + AddTail(constraint, clause))))
              == Some((DottedText(holder), clause))
  {
    hide QualifiedName, Dotted, AlterOptions, AddTail, AtWords;
    var tail := AddTail(constraint, clause);
    var rest := Dotted(holder) + tail;
    var chosen := AlterOptions(ifExists, only) + rest;
    var all := [Word("alter"), Word("table")] + chosen;
    assert all[1..] == [Word("table")] + chosen && all[1..][1..] == chosen;
    AddTailRead(DottedText(holder), constraint, clause);
    FirstOfDotted(holder, tail);
    NotIfExists(holder, tail);
    OptionsRead(ifExists, only, rest);
    DottedRead(holder, tail);
  }

  lemma FirstOfDotted(holder: seq<Token>, tail: seq<Token>)
    requires holder != []
    ensures Dotted(holder) + tail != [] && (Dotted(holder) + tail)[0] == holder[0]
  {
  }

  lemma NotIfExists(holder: seq<Token>, tail: seq<Token>)
    requires AreNames(holder) && holder != [] && AtWord(tail, "add")
    ensures !AtWords(Dotted(holder) + tail, ["if", "exists"])
  {
    var all := Dotted(holder) + tail;
    assert ["if", "exists"][1] == "exists";
    if |holder| == 1 {
      assert all[1] == Word("add");
    } else {
      assert all[1] == Punct('.');
    }
  }

  lemma LaterRead(holder: seq<Token>, ifExists: bool, only: bool, constraint: Option<Token>, column: Token, table: seq<Token>, keys: seq<Token>)
    requires AreNames(holder) && holder != [] && holder[0] != Word("only") && IsName(column) && IsTarget(table, keys)
    ensures Classified(Later(holder, ifExists, only, constraint, column, table, keys))
      == ForeignKey(DottedText(holder), Meant(NameText(column), table, keys))
  {
    hide AlterHead, KeyClause, Dotted, Listed, References, IsTarget, Meant, Parsed, Commented, AlterOptions, AddTail;
    var clause := [Word("foreign"), Word("key")] + (Listed([column]) + References(table, keys) + []);
    LaterHeadRead(holder, ifExists, only, constraint, clause);
    LateKeyRead([column], table, keys, []);
  }

  /** However a foreign key of one column is written, the reader is given the
      same key of the same table: on the column, among whatever clauses, in the
      table, or added later. The table and its column read the same beside it. */
  lemma ThreeSpellings(holder: seq<Token>, column: Token, words: seq<Token>, t: DataType, before: seq<Clause>, after: seq<Clause>,
                       table: seq<Token>, keys: seq<Token>, ifExists: bool, only: bool, constraint: Option<Token>)
    requires AreNames(holder) && holder != [] && holder[0] != Word("only")
    requires IsColumnName(column) && IsColumn(column, words, t, before + after) && IsTarget(table, keys)
    ensures var c := AllTold(before + after, Untold(column, words, t));
            Stated(ParsedColumn(NameText(column), ShownType(t), JoinWords(NameTexts(words)) !in SERIALS, false, false, None), before + after, c)
    ensures var c := AllTold(before + after, Untold(column, words, t));
            var key := ParsedForeignKey(NameText(column), DottedText(table), if keys == [] then None else Some(NameText(keys[0])));
            var parsed := ParsedTable(DottedText(holder), [c], [key], []);
            && Classified(OnColumn(holder, column, words, t, before, table, keys, after)) == Table(parsed)
            && Classified(InTable(holder, column, words, t, before + after, table, keys)) == Table(parsed)
            && Classified(Later(holder, ifExists, only, constraint, column, table, keys)) == ForeignKey(DottedText(holder), key)
            && KeysOf(parsed) == [(DottedText(holder), key)]
  {
    hide Parsed, Altered, Commented, IsTypeOf, IsTarget, Stated, AllReadable, AllTold, ShownType, JoinWords;
    hide ReferringText, ColumnText, KeyText, References, Listed, Dotted;
    AllToldStated(before + after, Untold(column, words, t));
    OnColumnRead(holder, column, words, t, before, table, keys, after);
    InTableRead(holder, column, words, t, before + after, table, keys);
    LaterRead(holder, ifExists, only, constraint, column, table, keys);
    assert OnColumn(holder, column, words, t, before, table, keys, after)[0] == Word("create");
    assert InTable(holder, column, words, t, before + after, table, keys)[0] == Word("create");
  }

  // ----- what a clause adds -----

  /** One key more, or one note more, and nothing else. */
  predicate OneKeyOrNote(before: ParsedTable, after: ParsedTable) {
    && after.name == before.name && after.columns == before.columns
    && ((|after.foreignKeys| == |before.foreignKeys| + 1 && before.foreignKeys < after.foreignKeys && after.skipped == before.skipped)
        || (|after.skipped| == |before.skipped| + 1 && before.skipped < after.skipped && after.foreignKeys == before.foreignKeys))
  }

  lemma KeyClausesAdd(rest: seq<Token>, column: string, parsed: ParsedTable)
    ensures OneKeyOrNote(parsed, TableForeignKey(rest, parsed).1)
    ensures var (found, left, after) := InlineReference(rest, column, parsed);
            && (found <==> AtWord(rest, "references"))
            && (if found then OneKeyOrNote(parsed, after) else after == parsed)
  {
    hide QualifiedName, NameList, TakeUntil;
  }

  /** Flags of a column may be set by a later item; the rest of it stays. */
  predicate Flagged(a: ParsedColumn, b: ParsedColumn) {
    && b == a.(primaryKey := b.primaryKey, nullable := b.nullable, unique := b.unique)
    && (a.primaryKey ==> b.primaryKey) && (a.unique ==> b.unique) && (b.nullable ==> a.nullable)
    && (a.nullable && !b.nullable ==> b.primaryKey)
  }

  predicate AllFlagged(a: seq<ParsedColumn>, b: seq<ParsedColumn>) {
    |a| == |b| && forall i :: 0 <= i < |a| ==> Flagged(a[i], b[i])
  }

  /** What one item of a table comes to: flags on columns already there, one key
      or one note, or one column, which may bring a key of its own or the note
      that its reference has no target. */
  predicate Accounted(before: ParsedTable, after: ParsedTable) {
    || (AllFlagged(before.columns, after.columns) && after == before.(columns := after.columns))
    || OneKeyOrNote(before, after)
    || (|after.columns| == |before.columns| + 1 && before.columns < after.columns
        && (after == before.(columns := after.columns)
            || (OneKeyOrNote(before, after.(columns := before.columns))
                && (after.skipped == before.skipped ==> after.foreignKeys[|before.foreignKeys|].column == after.columns[|before.columns|].name))))
  }

  lemma {:induction false} MarksFlag(columns: seq<ParsedColumn>, names: seq<string>)
    ensures AllFlagged(columns, MarkPrimary(columns, names))
    decreases |names|
  {
    hide FindColumn;
    if names != [] {
      match FindColumn(columns, names[0]) {
        case None =>
          MarksFlag(columns, names[1..]);
        case Some(i) =>
          var marked := columns[i := columns[i].(primaryKey := true, nullable := false)];
          MarksFlag(marked, names[1..]);
          FlagsCompose(columns, marked, MarkPrimary(marked, names[1..]));
      }
    }
  }

  lemma FlagsCompose(a: seq<ParsedColumn>, b: seq<ParsedColumn>, c: seq<ParsedColumn>)
    requires AllFlagged(a, b) && AllFlagged(b, c)
    ensures AllFlagged(a, c)
  {
    forall i | 0 <= i < |a|
      ensures Flagged(a[i], c[i])
    {
      assert Flagged(a[i], b[i]) && Flagged(b[i], c[i]);
    }
  }

  lemma UniqueFlags(columns: seq<ParsedColumn>, name: string)
    ensures AllFlagged(columns, MarkUnique(columns, name))
  {
    hide FindColumn;
  }

  lemma ColumnAccounted(rest: seq<Token>, parsed: ParsedTable)
    ensures Accounted(parsed, ColumnItem(rest, parsed).1)
  {
    hide Column, Constraints, InlineReference, TakeUntil, OneKeyOrNote;
    var (read, left) := Column(rest);
    match read {
      case Read(column) =>
        KeyClausesAdd(left, column.name, parsed);
        InlineKey(left, column.name, parsed);
        ReferenceAccounted(left, column, parsed);
      case Unread(name) =>
        NoteAccounted(parsed, UnknownColumn(name, Rendering.Render(TakeUntil(left, [], 0).0)));
    }
  }

  lemma ReferenceAccounted(left: seq<Token>, column: ParsedColumn, parsed: ParsedTable)
    ensures var (referenced, rest, after) := InlineReference(left, column.name, parsed);
            var full := if referenced then Constraints(rest, column).1 else column;
            Accounted(parsed, after.(columns := after.columns + [full]))
  {
    hide QualifiedName, NameList, Constraints;
    var (referenced, rest, after) := InlineReference(left, column.name, parsed);
    assert after.columns == parsed.columns;
  }

  lemma InlineKey(rest: seq<Token>, column: string, parsed: ParsedTable)
    ensures var after := InlineReference(rest, column, parsed).2;
            after.skipped == parsed.skipped && AtWord(rest, "references") ==>
              |after.foreignKeys| == |parsed.foreignKeys| + 1 && after.foreignKeys[|parsed.foreignKeys|].column == column
  {
    hide QualifiedName, NameList;
  }

  lemma NoteAccounted(parsed: ParsedTable, note: Note)
    ensures OneKeyOrNote(parsed, parsed.Skip(note)) && Accounted(parsed, parsed.Skip(note))
  {
  }

  /** Item by item nothing is lost: each one is flags, a key, a note, or a
      column, and leaves what was read before it. */
  lemma ItemAccounted(rest: seq<Token>, parsed: ParsedTable)
    ensures Accounted(parsed, Item(rest, parsed).1)
  {
    hide NameList, TableForeignKey, ColumnItem, MarkPrimary, MarkUnique, TakeUntil, SkipBalanced, AllFlagged, OneKeyOrNote;
    var inner := if AtWord(rest, "constraint") then Next(rest[1..]) else rest;
    ColumnAccounted(inner, parsed);
    if |inner| >= 2 {
      KeyClausesAdd(inner[2..], "", parsed);
      TableKeyAccounted(inner[2..], parsed);
    }
    if |inner| >= 1 {
      TableUniqueAccounted(inner[1..], parsed);
    }
    NoteAccounted(parsed, CheckConstraint);
    NoteAccounted(parsed, OtherConstraint(Rendering.Render(TakeUntil(inner, [], 0).0)));
  }

  lemma TableKeyAccounted(rest: seq<Token>, parsed: ParsedTable)
    ensures Accounted(parsed, TableKey(rest, parsed).1)
  {
    hide NameList, MarkPrimary;
    var names := NameList(rest).0;
    if names.Some? {
      MarksFlag(parsed.columns, names.value);
    }
  }

  lemma TableUniqueAccounted(rest: seq<Token>, parsed: ParsedTable)
    ensures Accounted(parsed, TableUnique(rest, parsed).1)
  {
    hide NameList, MarkUnique;
    var names := NameList(rest).0;
    if names.Some? && |names.value| == 1 {
      UniqueFlags(parsed.columns, names.value[0]);
    }
  }
}
