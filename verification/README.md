# Schema designer: a verified model

This project models the core of the schema designer and proves what its parts
promise each other. The designer holds a drawn schema (tables, columns, foreign
keys, lines between columns, places on a canvas). Around that one model stand:

- a **verifier** of ten checks, the hardest of which finds cycles of foreign
  keys with Tarjan's algorithm and says whether some table can never receive a
  row;
- a **generator** that prints a schema as a PostgreSQL script, and a **reader**
  that scans, parses and rebuilds a schema from any script;
- a **differ** that compares two schemas by name and counts what matched;
- a **JSON codec**;
- two protocols over a database: reserving a schema's name under a lock, and
  signing up over a unique address.

The main results:

- `Groups.StronglyConnected` returns exactly the strongly connected groups, and
  `Cycles.ErrorIffSomeTableNeverFills` says an error means just that some table
  stays empty in every run of inserts.
- `RoundTripLaw.PrintedThenReadIsEqualIff`: exactly which schemas, printed and
  read back, compare equal. It is proved in three layers: text to tokens
  (`ScriptScan.ScanOfScript`), tokens to a parsed table
  (`ParseTable.ParsedTableIs`), parsed statements to a draft
  (`RoundTrip.AssembledBack`). The lexical rules are those of sections 4.1.1,
  4.1.2.1, 4.1.2.4 and 4.1.5 of the PostgreSQL manual.
- `Verifier.NoErrorIffWellFormed`: the verifier decides one declarative
  predicate; `ScriptRuns.ScriptRunsIff`: exactly when the script of an error-free
  schema runs, on a server that cuts every identifier to 63 bytes. What the
  server can index and compare is a parameter; on one that knows the verifier's
  type families two things are left to go wrong
  (`ScriptRuns.FamilyServerRunsIff`), and for both there is a schema the verifier
  accepts whose script fails on every server. A column of a composite key that is
  flagged unique may be referenced, but the generator prints no UNIQUE for it
  (`CompositeKeyExample.AcceptedYetFails`). And names may become one name when
  they are cut: the constraint names of a table whose own name takes 60 bytes or
  more all do (`LongNameExample.AcceptedYetClashes`).
- The differ's algebra: equality, mirroring, conservation, renaming.
  `EqualityLaws.CompareReflexiveIff` gives the exact condition under which a
  schema compares equal to itself.
- `JsonLaws.WrittenThenReadIff` and `JsonLaws.SecondTripIsIdentity`.
- `Reservation.NamesStayUnique`, `Linearized.AnswersAsAlone` (every save, replace
  and delete takes effect at one instant, with the answer it would have alone)
  and `SignUpLaws.SignedHasEarnedIt`, over every interleaving.
- What each part answers is told from its input alone, by relations written
  without the functions that compute it: the report (`VerdictLaws.ReportedIff`),
  the list of differences (`Listings.ListedIff`), the accepted JSON documents
  (`JsonShapes.DecodedIff`), the draft of any script (`ReaderMeaning.DraftMeans`),
  the columns and keys of foreign scripts in all their spellings
  (`ColumnClauses.ColumnIsStated`, `KeyClauses.ThreeSpellings`), and the lexical
  forms a generated script never uses (`Lexemes`).

## How it is laid out

Objects that the program updates in place are classes here (the scanner, the
token cursor, the Tarjan search, the importer, the comparison under way, the
report), loops are loops, and each method is proved equal to a function of what
it was given. The laws are lemmas about those functions. The two protocols are
state machines whose steps are single statements.

- Vocabulary: `Options`, `Strings`, `Decimal`, `Domain`, `Diagnostics`, `Grid`.
- Cycles: `Graphs`, `Components`, `Tarjan`, `Groups`, `Runs`, `Cycles`.
- Verifier: `SyntaxChecks`, `StructureChecks`, `ReferenceChecks`,
  `DocumentationCheck`, `Verifier`, `VerdictLaws`, `VerdictCounts`; what its
  verdict is worth: `Catalogue`, `ScriptRuns`, `CompositeKeyExample`,
  `LongNameExample`.
- Differ: `Matching`, `Comparisons`, `Differ`, then the laws in `Sums`,
  `Tallies`, `Mirroring`, `Equality`, `EqualityLaws`, `Renaming`, `Listings`.
- SQL: `Scanning`, `Rendering`, `Lexing`, `Generator`, `ScriptTokens`, `Script`,
  `ScriptScan`, `Lexemes`; `Cursors`, `TableParser`, `ParseTable`,
  `ColumnClauses`, `KeyClauses`, `TableItems`; `Statements`, `Remarks`,
  `SqlReader`, `ReaderLaws`, `ReaderMeaning`, `DottedColumns`; `ReadBack`,
  `DraftBack`, `CommentsBack`, `RoundTrip`, `RoundTripLaw`, `RoundTripExample`.
- JSON: `Names`, `JsonValues`, `JsonCodec`, `JsonLaws`, `JsonShapes`.
- Protocols: `Reservation`, `Races`, `Linearized`; `SignUp`, `SignUpLaws`.

What the SQL round trip is about. A script can carry a schema
(`RoundTrip.Carried`) with at least one table; names unique up to case, column
names also once trimmed; no line break in a table name when positions are printed; every foreign
key resolving; and each default scanning on its own (no quote or comment left
open), with matched parentheses and no comma or constraint word outside them.
Of those schemas, the ones given back as they were (`RoundTrip.Kept`) are those
with names trimmed; type parameters only where the kind takes them; defaults that are fixed
points of scanning and rendering; key columns unique and not nullable; no dot in
the name of a documented column; one target for all keys spelled as held by one
column; and, spelling by spelling, one 1:N line without words for each foreign
key. `RoundTripExample.ExampleIsKept` is one. Names may be blank, and only need
to be unique.

Verify with `dafny verify dfyconfig.toml`.

## Model

| member | source | states |
|---|---|---|
| Tarjan.Search.Visit | src/module/schema/core/service/verifier/cycles.rs:95-131 | From a state where everything visited so far is settled or on the stack, visiting a node settles exactly what it reaches anew: the low links and stack order stay those of a depth-first search, and every component popped is a whole strongly connected component |
| Tarjan.Search.PopComponent | src/module/schema/core/service/verifier/cycles.rs:116-131 | The component popped is the stack from the node upwards, and nothing else on the stack or in the earlier components changes |
| Groups.StronglyConnected | src/module/schema/core/service/verifier/cycles.rs:134-171 | For any node count and in-range edges it terminates with the groups of two or more nodes that reach each other: two nodes share a group exactly when each reaches the other, groups are disjoint and increasing, and the list is in order |
| Groups.ReportUnique | src/module/schema/core/service/verifier/cycles.rs:134-171 | Those conditions leave only one list: any two that meet them are equal, so the search order cannot show |
| Cycles.CollectEdges | src/module/schema/core/service/verifier/cycles.rs:14-44 | The two edge lists are exactly the references to other tables, and those of them held by NOT NULL columns |
| Cycles.CheckCycles | src/module/schema/core/service/verifier/cycles.rs:13-82 | The report gains one diagnostic for each strongly connected group of the reference graph, in order |
| Cycles.CycleFindingUnique | src/module/schema/core/service/verifier/cycles.rs:13-82 | What the check adds is fixed by the tables alone |
| Cycles.GroupErrorIffBlocked | src/module/schema/core/service/verifier/cycles.rs:55-74 | A group is reported as an error exactly when one of its own tables is on a cycle of NOT NULL references |
| Cycles.NeverFillsIffStuck | src/module/schema/core/service/verifier/cycles.rs:7-13 | With unique ids, the tables that stay empty in every run of inserts are exactly those that need, directly or through others, two tables that need each other |
| Cycles.ErrorIffSomeTableNeverFills | src/module/schema/core/service/verifier/cycles.rs:7-82 | With unique ids, an error is reported exactly when some table can never receive a row |
| Cycles.NoErrorFillsEveryTable | src/module/schema/core/service/verifier/cycles.rs:7-82 | Without an error, one run of inserts puts a row into every table |
| Scanning.ScanScript | src/module/schema/core/service/exchange/sql/scan.rs:49-61 | Scanning gives the statements and hints of the step-by-step reading of the text |
| Scanning.Scanner.Run | src/module/schema/core/service/exchange/sql/scan.rs:76-107 | The loop over the characters reads the whole text, a step at a time, to the end |
| Scanning.Scanner.Next | src/module/schema/core/service/exchange/sql/scan.rs:76-107 | One turn takes one token, comment, space or statement end off the front, whichever stands there |
| Scanning.Scanner.LineComment | src/module/schema/core/service/exchange/sql/scan.rs:145-159 | A line comment is passed up to its line end, and a hint in it is kept with the statement it stands above when no statement is under way |
| Scanning.Scanner.BlockComment | src/module/schema/core/service/exchange/sql/scan.rs:161-181 | A block comment is passed up to its own end marker, nested ones counted |
| Scanning.Scanner.QuotedValue | src/module/schema/core/service/exchange/sql/scan.rs:183-209 | The value up to the closing delimiter, a doubled one standing for itself |
| Scanning.Scanner.DollarTag | src/module/schema/core/service/exchange/sql/scan.rs:211-227 | The tag of a dollar quote, or none where the characters do not spell one |
| Scanning.Scanner.DollarQuoted | src/module/schema/core/service/exchange/sql/scan.rs:229-245 | The text up to the same tag, or to the end of the script |
| Scanning.Scanner.Lexeme | src/module/schema/core/service/exchange/sql/scan.rs:247-280 | A number, a word in lower case, or a mark, taken as far as it goes |
| Lexemes.DollarQuoteIsOneText | src/module/schema/core/service/exchange/sql/scan.rs:211-245 | A dollar quote, whatever it holds, is one text up to the first place its own delimiter stands again |
| Lexemes.TagIff | src/module/schema/core/service/exchange/sql/scan.rs:211-227 | A dollar opens a quote exactly where name characters other than a dollar, and then a dollar, follow it |
| Lexemes.BlockCommentIsSkipped | src/module/schema/core/service/exchange/sql/scan.rs:161-181 | A block comment, with comments inside it to any depth, leaves nothing and ends where its own end marker stands |
| Lexemes.LineCommentIsSkipped | src/module/schema/core/service/exchange/sql/scan.rs:145-159 | A line comment ends with its line and leaves nothing but the hint it may be |
| Lexemes.BareHintRead | src/module/schema/core/service/exchange/sql/scan.rs:282-331 | A hint with a name that is not quoted: any dashes and blanks, `@table`, the name and two numbers, whatever follows; without two numbers there is none |
| Rendering.RenderTokens | src/module/schema/core/service/exchange/sql/cursor.rs:155-178 | The loop writes the rendering of the tokens |
| Rendering.RenderIsSpaced | src/module/schema/core/service/exchange/sql/cursor.rs:153-178 | Tokens are written with one space between them, but none behind an opening parenthesis or before a parenthesis or a comma |
| Rendering.ScanOfRender | src/module/schema/core/service/exchange/sql/cursor.rs:155-178 | Any list of tokens the scanner can produce, rendered and scanned again, is the same list |
| Rendering.StatementSurvivesRender | src/module/schema/core/service/exchange/sql/scan.rs:76-271 | Every statement scanned from any text survives rendering and scanning again |
| Rendering.NormalizedOnce | src/module/schema/core/service/exchange/sql/cursor.rs:153-178 | Normalising an expression twice is normalising it once, and changes none of its tokens |
| Generator.WriteColumn | src/module/schema/core/service/generator/table.rs:23-48 | The line of a column: name, type, NOT NULL, default, and UNIQUE only apart from the key |
| Generator.WriteTable | src/module/schema/core/service/generator/table.rs:5-63 | The CREATE TABLE statement: every column in order, then the key |
| Generator.WriteForeignKeys | src/module/schema/core/service/generator/constraint.rs:8-37 | One statement for each reference that resolves, in the order of tables and columns |
| Generator.CutTo | src/module/schema/core/service/generator/constraint.rs:39-57 | The longest prefix, cut at a character, that fits the limit in bytes |
| Generator.ConstraintName | src/module/schema/core/service/generator/constraint.rs:39-57 | A constraint name always fits what PostgreSQL stores |
| Generator.WriteComments | src/module/schema/core/service/generator/comment.rs:8-39 | One statement for each description that is not blank, a table before its columns |
| Generator.Generate | src/module/schema/core/service/generator/mod.rs:19-47 | The script: tables with their hints, foreign keys, then comments, blank lines between |
| ScriptTokens.TableWhole | src/module/schema/core/service/generator/table.rs:5-63 | A table statement scans to exactly one statement with the tokens meant, whatever its names hold |
| ScriptTokens.StableLexes | src/module/schema/core/service/exchange/sql/cursor.rs:153-178 | A default that normalising leaves alone scans to its own tokens wherever it stands in a script |
| Script.ForeignKeyWhole | src/module/schema/core/service/generator/constraint.rs:8-37 | A foreign key statement scans to one statement with the tokens meant |
| Script.TableCommentWhole | src/module/schema/core/service/generator/comment.rs:8-39 | A table comment scans to one statement whose text is the description, whatever quotes or markers it holds |
| Script.ColumnCommentWhole | src/module/schema/core/service/generator/comment.rs:8-39 | The same for a column comment, `table.column` kept as two names and a dot |
| Script.ReadHintIs | src/module/schema/core/service/exchange/sql/scan.rs:282-331 | The hint line a table is printed with is read back as its own name and position |
| ScriptScan.ScanOfScript | src/module/schema/core/service/generator/mod.rs:19-54 | A generated script scans to one statement for each table, foreign key and comment, in that order, and each hint is above its own table |
| Cursors.Cursor.EatWords | src/module/schema/core/service/exchange/sql/cursor.rs:49-63 | Several keywords are taken all together or not at all |
| Cursors.Cursor.ReadName | src/module/schema/core/service/exchange/sql/cursor.rs:75-88 | A name with all its dotted parts, or nothing |
| Cursors.Cursor.ReadNames | src/module/schema/core/service/exchange/sql/cursor.rs:90-107 | The names between parentheses, or nothing where the list is not well formed |
| Cursors.Cursor.TakeUntilSeparator | src/module/schema/core/service/exchange/sql/cursor.rs:109-130 | Everything up to a comma, closing parenthesis or stop word outside parentheses |
| Cursors.Cursor.SkipParentheses | src/module/schema/core/service/exchange/sql/cursor.rs:132-151 | A parenthesised run is passed up to the parenthesis that closes it |
| TableParser.ReadTypeWords | src/module/schema/core/service/exchange/sql/table.rs:241-254 | The words of a type, up to one that can only be a constraint |
| TableParser.ReadParameters | src/module/schema/core/service/exchange/sql/table.rs:256-297 | The numbers in parentheses that fit 32 bits, and the words trailing the type passed |
| TableParser.ReadConstraint | src/module/schema/core/service/exchange/sql/table.rs:299-350 | One constraint of a column taken, or the end of them |
| TableParser.ReadConstraints | src/module/schema/core/service/exchange/sql/table.rs:299-350 | All constraints of a column, each setting its own flag and no other |
| TableParser.ReadColumn | src/module/schema/core/service/exchange/sql/table.rs:204-239 | A column with its type and constraints, or the name of one whose type is unknown |
| TableParser.MarkPrimaryColumns | src/module/schema/core/service/exchange/sql/table.rs:378-398 | Each named column is a key column and not nullable; unknown names change nothing |
| TableParser.ReadForeignKey | src/module/schema/core/service/exchange/sql/table.rs:162-202 | A foreign key of one column is kept, any other is noted as left out |
| TableParser.ReadInlineReference | src/module/schema/core/service/exchange/sql/table.rs:352-376 | A reference written on a column is a key of that column |
| TableParser.ReadColumnItem | src/module/schema/core/service/exchange/sql/table.rs:142-160 | A column added with what follows its reference, or a note of what could not be read |
| TableParser.ReadItem | src/module/schema/core/service/exchange/sql/table.rs:91-160 | One item: a key, foreign key, unique, check or other constraint, or a column |
| TableParser.ReadItems | src/module/schema/core/service/exchange/sql/table.rs:80-88 | Items are read up to the closing parenthesis, a comma between any two |
| TableParser.Parse | src/module/schema/core/service/exchange/sql/table.rs:49-89 | A CREATE TABLE statement read as a table, or nothing where it is none |
| ColumnClauses.KindOfIff | src/module/schema/core/service/exchange/sql/types.rs:6-29 | A type name is read as a kind exactly when it is one of the spellings of that kind, and as none when it is no spelling of any |
| ColumnClauses.ClausesRead | src/module/schema/core/service/exchange/sql/table.rs:299-350 | Any clauses after a type, in any order and number: key and unique flags exactly where a clause says so, nullability and default as the last clause about them says, names, checks and collations passed over |
| ColumnClauses.ColumnIsStated | src/module/schema/core/service/exchange/sql/table.rs:204-239 | A column is read with its name, the kind its words spell, its parameters, NOT NULL where the type is a serial one, and what its clauses say |
| ColumnClauses.MarkedAre | src/module/schema/core/service/exchange/sql/table.rs:378-398 | A key named in the table flags exactly the columns its names find, and no other |
| KeyClauses.ThreeSpellings | src/module/schema/core/service/exchange/sql/table.rs:142-376 | A foreign key of one column written on the column among any clauses, as an item of the table, or by ALTER TABLE with any of its options, is the same holder, column, table and target; the table and its column read the same beside it |
| KeyClauses.KeyClausesAdd | src/module/schema/core/service/exchange/sql/table.rs:162-376 | Whatever the tokens, a FOREIGN KEY item adds one key or one note, a REFERENCES one key or one note exactly where it stands, and all columns, keys and notes before it stay |
| KeyClauses.ItemAccounted | src/module/schema/core/service/exchange/sql/table.rs:91-160 | Whatever the tokens, one item comes to flags on columns already there, to one key, to one note, or to one column, with its key or a note of it; nothing else changes |
| TableItems.PrimaryItemRead | src/module/schema/core/service/exchange/sql/table.rs:91-141 | PRIMARY KEY over names makes key columns, not nullable, of exactly the columns named, and changes nothing else |
| TableItems.UniqueItemRead | src/module/schema/core/service/exchange/sql/table.rs:91-141 | UNIQUE over one name flags that column; over several it is one note |
| TableItems.UnknownColumnRead | src/module/schema/core/service/exchange/sql/table.rs:142-160 | A column of a type that is not known is one note, and reading goes on behind it |
| TableItems.ParametersAreNumbers | src/module/schema/core/service/exchange/sql/table.rs:256-297 | The parameters are the numbers that fit 32 bits, in order, and the words behind them are passed over |
| TableItems.HeadIsPassed | src/module/schema/core/service/exchange/sql/table.rs:49-66 | Words between CREATE and TABLE and IF NOT EXISTS behind it change nothing |
| ParseTable.KindOfText | src/module/schema/core/service/exchange/sql/types.rs:6-29 | Every kind is read back from the name it is shown by |
| ParseTable.ParsedTableIs | src/module/schema/core/service/exchange/sql/table.rs:49-350 | The tokens of a table as printed parse to every column with its name, type as written, nullability, key flag, uniqueness apart from the key and default as normalised, in order, with nothing skipped, whatever words the names are |
| Statements.ReadAlter | src/module/schema/core/service/exchange/sql/mod.rs:133-182 | ALTER TABLE ... ADD FOREIGN KEY of one column read as a late key; anything else skipped |
| Statements.ReadComment | src/module/schema/core/service/exchange/sql/mod.rs:184-227 | COMMENT ON read as a comment on a table or, split at the last dot, on a column |
| Statements.LastDot | src/module/schema/core/service/exchange/sql/mod.rs:214-219 | The last dot of a name, or none where there is none |
| Statements.Classify | src/module/schema/core/service/exchange/sql/mod.rs:106-131 | Each statement is a table, a late key, a comment, or skipped |
| Remarks.RemarkSays | src/module/schema/core/service/exchange/sql/mod.rs:184-227 | A comment on a table is about the whole name, one on a column about the parts before and behind the last dot; without a dot or a text it says nothing |
| SqlReader.Sort | src/module/schema/core/service/exchange/sql/mod.rs:32-42 | The statements sorted into tables with their places, late keys, comments and a count of the skipped |
| SqlReader.Importer.AddTable | src/module/schema/core/service/exchange/sql/mod.rs:58-67 | One entity with new ids for each table, and one warning for each part left out |
| SqlReader.Importer.Link | src/module/schema/core/service/exchange/sql/mod.rs:251-304 | A key whose tables and columns are found is set on its column and drawn as a line; any other is one warning |
| SqlReader.Importer.Describe | src/module/schema/core/service/exchange/sql/mod.rs:306-336 | A comment is written on the table or column it names, or is one warning |
| SqlReader.Importer.Place | src/module/schema/core/service/exchange/sql/mod.rs:338-364 | Each table takes the hint above its own statement, else one of its name, else its grid slot |
| SqlReader.ReadScript | src/module/schema/core/service/exchange/sql/mod.rs:24-91 | The whole reading: no table, no draft; otherwise tables, own keys, late keys, comments and places in that order |
| ReaderLaws.SortedAll | src/module/schema/core/service/exchange/sql/mod.rs:32-42 | Every statement falls in exactly one pile, and each table keeps the place of its statement |
| ReaderLaws.LinkedAll | src/module/schema/core/service/exchange/sql/mod.rs:69-82 | Each foreign key becomes exactly one line or one warning, and the draft stays sound |
| ReaderLaws.DescribedAll | src/module/schema/core/service/exchange/sql/mod.rs:84-86 | Each comment is written down or becomes one warning, and no key, line or name changes |
| ReaderLaws.EveryStatementIsAccountedFor | src/module/schema/core/service/exchange/sql/mod.rs:24-336 | For every accepted script: statements, entities, lines and warnings add up; every key and line end resolves; every key has its line; every primary key column is flagged unique; only skip warnings are reported |
| ReaderMeaning.TiesIff | src/module/schema/core/service/exchange/sql/mod.rs:229-304 | A key is linked exactly when its names find two columns: a table by its name up to case or else by its last part, the first in order; without a target column, the first of the key |
| ReaderMeaning.DraftMeans | src/module/schema/core/service/exchange/sql/mod.rs:51-91 | For every accepted script: a column has the foreign key of the last key tying it, or none; the n-th key that finds its columns is the n-th line, 1:N from the key to its holder; every table and column is described by the last comment about it, or not at all; every table stands where the hint for it, or its grid slot, says |
| ReaderMeaning.KeysInOrder | src/module/schema/core/service/exchange/sql/mod.rs:69-82 | The keys the tables wrote themselves come first, in the order of the script, then those added later |
| ReaderMeaning.PilesInOrder | src/module/schema/core/service/exchange/sql/mod.rs:32-42 | Late keys and comments are taken in the order of the script |
| ReadBack.ScriptSorts | src/module/schema/core/service/exchange/sql/mod.rs:32-42 | A generated script sorts into its own tables, keys and comments with nothing skipped |
| RoundTrip.AssembledBack | src/module/schema/core/service/exchange/sql/mod.rs:51-86 | The draft read back has the columns, keys, lines and descriptions of the schema printed, under new ids, and nothing to report |
| DottedColumns.DottedColumnsStaySilent | src/module/schema/core/service/exchange/sql/mod.rs:184-227 | In the draft of any accepted script no column with a dot in its name has a description: a comment names its column after the last dot |
| EqualityLaws.PerfectIff | src/module/schema/core/service/exchange/compare.rs:30-67 | Two lists of names pair off completely exactly when each name is in both equally often |
| RoundTripLaw.PrintedThenReadIsEqualIff | src/module/schema/core/service/exchange/round_trip.rs:1-60 | For every schema a script can carry, with or without positions, reading back the printed script succeeds, and comparing finds the two equal exactly when names are trimmed, type parameters fit their kinds, defaults are normalised, key columns are unique and not nullable, no documented column has a dot in its name, keys spelled as held by one column have one target, and the lines are, spelling by spelling, one wordless 1:N line for each foreign key; the report is then empty |
| RoundTripExample.ExampleIsKept | src/module/schema/core/service/exchange/round_trip.rs:19-37 | A schema with a key between two tables, quotes and comment markers in its names, is carried and kept |
| Comparisons.Log.Settle | src/module/schema/core/service/exchange/compare.rs:350-365 | One count for the thing compared, however many of its fields moved, and every moved field listed |
| Comparisons.Log.Record | src/module/schema/core/domain/comparison.rs:202-205 | A difference is listed and counted in its own category and kind, the counters staying the totals of what was settled |
| Differ.CompareAttribute | src/module/schema/core/service/exchange/compare.rs:122-206 | A column settles its fields, its keys and its description, one after the other |
| Differ.CompareColumns | src/module/schema/core/service/exchange/compare.rs:84-119 | Each expected column meets the first free one of its name; what is left over on either side is missing or extra |
| Differ.CompareEntities | src/module/schema/core/service/exchange/compare.rs:26-67 | Each expected table meets the first free one of its name; what is left over on either side is missing or extra |
| Differ.FindReferences | src/module/schema/core/service/exchange/compare.rs:298-317 | Every foreign key as holder and target, by name |
| Differ.CompareForeignKeys | src/module/schema/core/service/exchange/compare.rs:220-247 | Each expected key is matched, changed or missing by the first of its holder; the unmatched actual ones are extra |
| Differ.CompareRelationships | src/module/schema/core/service/exchange/compare.rs:249-296 | Each expected line meets the first free one with the same ends |
| Differ.Compare | src/module/schema/core/service/exchange/compare.rs:9-24 | The comparison is the total of what the four parts settle |
| Listings.ListedIff | src/module/schema/core/service/exchange/compare.rs:9-381 | A difference is listed exactly when it is there: for paired tables, columns, keys and lines each field that moved, under its path, with the expected text first and the actual one second; for what has no partner, its own text on its own side |
| Listings.ListedOnce | src/module/schema/core/domain/comparison.rs:172-205 | Each thing missing or extra is listed once and each thing changed at least once, so the list adds up to the counters |
| Matching.FreeIsPartner | src/module/schema/core/service/exchange/compare.rs:30-57 | The search with taken flags pairs the k-th name on one side with the k-th same name on the other |
| Equality.EqualIffAgree | src/module/schema/core/service/exchange/compare.rs:9-365 | All counters are clean exactly when the two schemas agree: names paired off completely, fields, keys, descriptions, references and lines the same |
| EqualityLaws.CompareReflexiveIff | src/module/schema/core/service/exchange/compare.rs:220-247 | A schema compares equal to itself exactly when foreign keys spelled as held by one column have one target |
| EqualityLaws.NotReflexiveExample | src/module/schema/core/service/exchange/compare.rs:220-247 | A schema that no comparison with itself finds equal |
| EqualityLaws.CompareSymmetric | src/module/schema/core/service/exchange/compare.rs:9-365 | What compares equal one way does so the other way exactly when the right side equals itself; with consistent holders on both sides the two comparisons always answer alike |
| EqualityLaws.CompareTransitive | src/module/schema/core/service/exchange/compare.rs:9-365 | Comparing equal carries over from one to the next |
| EqualityLaws.EqualIffNoDifference | src/module/schema/core/domain/comparison.rs:172-205 | For all inputs, equal exactly when no difference is listed |
| EqualityLaws.TablesMatchedAreMost | src/module/schema/core/service/exchange/compare.rs:26-67 | The greedy pairing matches as many tables as any pairing that respects names could |
| Mirroring.ComparisonMirrors | src/module/schema/core/service/exchange/compare.rs:9-296 | Swapping the sides keeps matched and changed, swaps missing and extra, and so swaps precision and recall, in every category; only the foreign keys need unique holders |
| Mirroring.ExpectedIsConserved | src/module/schema/core/service/exchange/compare.rs:26-296 | Matched, changed and missing add up to the expected tables, lines, foreign keys and columns of matched tables |
| Mirroring.ActualIsConserved | src/module/schema/core/service/exchange/compare.rs:26-296 | Matched, changed and extra add up to the actual ones, for foreign keys given unique holders |
| Mirroring.ScoresAreShares | src/module/schema/core/domain/comparison.rs:121-132 | Precision is the matched share of the actual tables and lines, recall that of the expected ones, and both are 1 where there are none |
| Renaming.RenamingChangesNothing | src/module/schema/core/service/exchange/compare.rs:298-348 | A schema whose references all resolve compares the same, difference by difference and on either side, after any renaming of entity ids and of attribute ids table by table, as an import makes new ids for each |
| SyntaxChecks.CheckNotEmpty | src/module/schema/core/service/verifier/syntax.rs:10-17 | A schema without tables is one warning |
| SyntaxChecks.CheckNames | src/module/schema/core/service/verifier/syntax.rs:19-43 | One error for each blank table or column name, in order |
| SyntaxChecks.CheckTypeParameters | src/module/schema/core/service/verifier/syntax.rs:45-97 | One error for each column whose type parameters are out of range |
| SyntaxChecks.CheckRelationshipEnds | src/module/schema/core/service/verifier/syntax.rs:99-130 | One error for each line with an end that does not resolve, placed at whichever table is there |
| StructureChecks.SameNameGroups | src/module/schema/core/service/verifier/structure.rs:7-28 | The groups of several items of one folded name, in the order names are first met |
| StructureChecks.SameNamesAre | src/module/schema/core/service/verifier/structure.rs:5-28 | A group is reported exactly when two names clash, and holds every position of its name in order |
| StructureChecks.CheckDuplicateNames | src/module/schema/core/service/verifier/structure.rs:30-70 | One error for each group of tables, and in each table of columns, naming all its members |
| StructureChecks.CheckPrimaryKeys | src/module/schema/core/service/verifier/structure.rs:72-85 | One error for each table without a key |
| ReferenceChecks.CheckForeignKeys | src/module/schema/core/service/verifier/references.rs:8-115 | For each reference: dangling, not to a key, of another family, or only too narrow |
| ReferenceChecks.CheckRelationships | src/module/schema/core/service/verifier/references.rs:117-187 | For each line that is not N:M: no key behind it, or a cardinality its key contradicts |
| DocumentationCheck.CheckDocumentation | src/module/schema/core/service/verifier/documentation.rs:7-59 | One warning for each table or line not fully described |
| Verifier.Verify | src/module/schema/core/service/verifier/mod.rs:17-42 | The report is what the ten checks find, in order |
| Verifier.VerdictUnique | src/module/schema/core/service/verifier/mod.rs:32-42 | The report is fixed by the schema |
| VerdictLaws.ReportedIff | src/module/schema/core/service/verifier/mod.rs:17-76 | A diagnostic is in the report exactly when the rules say it of the schema, each written out with its severity, the ids it names and its place: blank and clashing names, parameters, ends, missing keys, references dangling, not to a key, of another family or too narrow, lines without a key or with a cardinality their key contradicts, missing words, cycles |
| VerdictCounts.ReportedOnce | src/module/schema/core/service/verifier/mod.rs:17-76 | Each check reports each thing wrong once: the number of its diagnostics is the number of blank names, bad parameters, dangling lines, shared names, tables without a key, wrong references, wrong lines, groups, and things without words |
| VerdictLaws.ReportedInOrder | src/module/schema/core/service/verifier/mod.rs:32-42 | The report runs through the ten checks in their order |
| VerdictLaws.ReferencesMean | src/module/schema/core/service/verifier/cycles.rs:14-44 | With unique ids, one table references another in the graph exactly when one of its columns does by id |
| Verifier.WholeKey | src/module/schema/core/service/verifier/mod.rs:71-76 | The key has one column exactly when no other column is in it |
| Verifier.UniqueKeyIff | src/module/schema/core/service/verifier/mod.rs:71-76 | A column counts as a unique key exactly when no other row can repeat it |
| Verifier.CyclesValid | src/module/schema/core/service/verifier/cycles.rs:13-82 | The cycle check has no error exactly when no two tables need each other by NOT NULL columns |
| Verifier.NoErrorIffWellFormed | src/module/schema/core/service/verifier/mod.rs:17-76 | With unique table ids, no error is reported exactly when names are given and apart, parameters in range, every table keyed, line ends resolve, keys lead to unique columns of the same family, every line but N:M has a key behind it, and no NOT NULL cycle exists |
| Catalogue.ScriptIsWritten | src/module/schema/core/service/generator/mod.rs:19-47 | The statements of the script, in order, are the commands run on the catalogue, as written |
| Catalogue.TypeAcceptedIff | src/module/schema/core/service/verifier/syntax.rs:69-97 | The parameters the verifier accepts are those the server takes, but for a scale without a precision, which the verifier refuses and the script leaves out |
| ScriptRuns.TableAccepted | src/module/schema/core/service/generator/table.rs:5-63 | A well-formed table is accepted exactly when no table has the name the server keeps of its own, the names kept of its columns differ, and the server can index its key and UNIQUE columns |
| ScriptRuns.DeclaredIff | src/module/schema/core/service/verifier/mod.rs:71-76 | A column the verifier calls unique is declared so by the generator exactly when it is not in a composite key |
| ScriptRuns.ConstraintKept | src/module/schema/core/service/generator/constraint.rs:39-57 | The server cuts nothing more off a constraint name: it stores the name the script is written with |
| ScriptRuns.NamesThatFit | src/module/schema/core/service/generator/constraint.rs:39-57 | Where names and whole constraint names fit 63 bytes, a well-formed schema has no two tables, columns of a table or constraints of a table that are one name once cut |
| ScriptRuns.LongTableNameClashes | src/module/schema/core/service/generator/constraint.rs:39-57 | Where fk_ and the table name alone fill the 63 bytes, any two foreign keys of the table get one constraint name |
| ScriptRuns.ScriptRunsIff | src/module/schema/core/service/generator/mod.rs:19-47 | For every error-free schema, whatever the server can index and compare, the script runs to the end on an empty catalogue of a server that cuts identifiers to 63 bytes exactly when the names of the tables, of the columns of each and of the constraints of each still differ once cut, key and unique columns can be indexed, no foreign key leads into a composite key and the ends of each can be compared; then every table stands with its columns, key and one constraint for each foreign key |
| ScriptRuns.FamilyServerRunsIff | src/module/schema/core/service/verifier/mod.rs:71-76 | On a server that indexes every kind and compares the kinds of one family, only names that are one once cut and composite keys can go wrong, and on names that fit whole only composite keys |
| CompositeKeyExample.AcceptedYetFails | src/module/schema/core/service/verifier/mod.rs:74-76 | A schema the verifier finds no error in whose script fails on every server: it references a column of a composite key that is also flagged unique |
| LongNameExample.AcceptedYetClashes | src/module/schema/core/service/generator/constraint.rs:39-57 | Another one: a table with a name of 60 characters has two foreign keys, whose constraint names are one after the cut, though all table and column names are kept whole and no key is composite |
| ReaderLaws.WithoutPositionsTablesAreApart | src/module/schema/core/service/exchange/sql/mod.rs:338-364 | Where positions are not read, no two tables are put in one place: the grid gives each its own slot |
| Names.KindComesBack | src/module/schema/core/service/exchange/names.rs:7-38 | Every kind is read back from its contract name, before any other kind |
| JsonCodec.ReadEntity | src/module/schema/core/service/exchange/json.rs:227-279 | An entity with its attributes, or a refusal |
| JsonCodec.ReadAttributes | src/module/schema/core/service/exchange/json.rs:281-351 | The attributes in order, or a refusal at the first that cannot be read |
| JsonCodec.ReadRelationships | src/module/schema/core/service/exchange/json.rs:353-409 | The lines in order, or a refusal at the first that cannot be read or ends at a table not held |
| JsonCodec.Read | src/module/schema/core/service/exchange/json.rs:194-225 | The draft of a document, entities before the lines between them, or a refusal |
| JsonShapes.DecodedIff | src/module/schema/core/service/exchange/json.rs:191-418 | A document is accepted as exactly the draft it says, field by field: what is required, what a missing or null field stands for (nullable, neither key nor unique, one to many, no words, grid slot), numbers in range, ids trimmed or made up, lines between tables held; any other is refused |
| JsonShapes.WrittenFields | src/module/schema/core/service/exchange/json.rs:28-190 | What a written document leaves out: positions unless asked for, and defaults, keys and parameters that are not there |
| JsonLaws.WrittenThenReadIff | src/module/schema/core/service/exchange/json.rs:28-418 | Reading what was written gives the draft back exactly when ids are trimmed and not empty, key columns not nullable, parameters fit their kind, lines end at held tables, and, where positions are left out, tables stand in their grid slots |
| JsonLaws.ReadIsNormal | src/module/schema/core/service/exchange/json.rs:191-418 | Any document accepted reads as a draft in that normal form |
| JsonLaws.SecondTripIsIdentity | src/module/schema/core/service/exchange/json.rs:28-418 | So writing and reading it again changes nothing, whatever ids are made up |
| Reservation.StepKeepsInv | src/module/schema/adapter/repository/postgres.rs:281-312 | Every step of a create, replace or delete keeps names unique, locks held once, and a name found free still free |
| Reservation.NamesStayUnique | src/module/schema/adapter/repository/postgres.rs:277-312 | In every interleaving, for any hash of the lock, no owner ever has two committed schemas whose names agree up to case |
| Reservation.OthersRowsStay | src/module/schema/adapter/repository/postgres.rs:475-536 | No step changes a row of another owner, and no row changes hands |
| Races.RefusedForAnother | src/module/schema/adapter/repository/postgres.rs:294-309 | In every run, a save is only refused because another schema of its owner, committed at that moment, has the name: one there from the start, or one another transaction saved |
| Races.RefusedIff | src/module/schema/adapter/repository/postgres.rs:277-312 | When a save leaves the lock it is refused exactly when a committed schema of its owner other than the one it replaces has its name up to case, and is let through exactly when none has |
| Linearized.AnswersAsAlone | src/module/schema/adapter/repository/postgres.rs:281-536 | The store is linearizable: in every interleaving a transaction that ends without breaking off does so at one instant, with the answer and the rows it would have alone there: conflict, not found, or done with one row written or removed |
| Linearized.AloneOnce | src/module/schema/adapter/repository/postgres.rs:281-536 | Alone, a request has one answer and leaves one set of rows, but for the number a create is given |
| Linearized.OwnStepsEnd | src/module/schema/adapter/repository/postgres.rs:287-293 | Each own step brings a transaction nearer its end, five at most, and never breaks it off |
| Races.PassedStaysFree | src/module/schema/adapter/repository/postgres.rs:287-309 | A name found free stays free until the save is over, whatever other transactions commit meanwhile |
| Races.RowHasSource | src/module/schema/adapter/repository/postgres.rs:405-536 | Every committed row was there from the start or is what some committed save wrote |
| Races.SecondSaveMeansFreed | src/module/schema/adapter/repository/postgres.rs:277-312 | When two saves of one owner commit the same name to different rows, some transaction deleted or renamed the first row after the first commit and before the second |
| Races.NeverBothStand | src/module/schema/adapter/repository/postgres.rs:277-312 | Two such saves never both stand: in no later state are both rows as they were saved |
| Reservation.CommittedNameIsItsOwn | src/module/schema/adapter/repository/postgres.rs:405-443 | A save that commits leaves its name with one schema of its owner, the row it wrote |
| Reservation.SomeoneIsReady | src/module/schema/adapter/repository/postgres.rs:287-293 | While any transaction is under way one of them can go on: the locks cannot deadlock |
| SignUp.StepKeepsInv | src/package/auth/service.rs:175-214 | Every step of a call, also one that breaks off, keeps addresses unique and each account with its one creator |
| SignUp.OneAccountPerAddress | src/package/auth/service.rs:283-327 | In every interleaving an address never has two accounts, so all calls that create one for it are the same call |
| SignUp.SignedInAsTheAccount | src/package/auth/service.rs:342-368 | All calls that succeed for an address are signed in as its one account |
| SignUpLaws.SignedHasEarnedIt | src/package/auth/service.rs:283-368 | In every run, whoever is signed in was allowed, and a registration that succeeds is signed in to the account it created itself; whoever created an account has seeded it |
| SignUpLaws.LookupDecides | src/package/auth/service.rs:283-368 | The lookup refuses a call not allowed and a registration of an address with an account, takes the caller of Google to that account, and lets any other go on |
| SignUpLaws.InsertDecides | src/package/auth/service.rs:175-214 | An insert of an address already taken ends a registration and sends the caller of Google to look again; a free one gets a new account |
| SignUpLaws.LoserFollows | src/package/auth/service.rs:199-209 | The caller of Google who lost the insert goes on to the account of its address, if there is one |
| SignUpLaws.RefusedForCause | src/package/auth/service.rs:283-368 | A call is refused only because it was not allowed or, as a registration, because its address was taken at that moment |
| SignUpLaws.OneRegistrationPerAddress | src/package/auth/service.rs:283-327 | Of all registrations of one address at most one is ever signed in |
| SignUp.SeededOnceByTheWinner | src/package/auth/service.rs:84-93 | An account gets the sample at most once, from the call that created it |
| SignUp.SomeoneIsReady | src/package/auth/store.rs:96-129 | While any call is under way one of them can go on |

## Left out

- Letters, digits and letter case are ASCII; white space is Unicode's own list. Unicode lower-casing that changes length or is not stable is not modelled.
- Positions are whole numbers: rounding a coordinate for the hint line, fractions or exponents in a hint, and fractional JSON numbers are not modelled; NaN does not arise.
- The 32-bit counters of a comparison are unbounded; precision and recall are real numbers rather than floating point.
- The wording of diagnostics, warnings and errors, the excerpt of a skipped statement, and the path a refused JSON file is refused at.
- JSON text itself: the codec starts from a parsed document and ends in one. The file name of an export is left out.
- Ids: made-up ids are a parameter, distinct from each other for the SQL reader and without white space for the JSON codec.
- The text of a statement is not kept beside its tokens, because only warnings quote it.
- Scanning.ReadHint: the reading of a hint line, its quoted name included, is a function rather than a loop, because it builds one value from one line.
- ScriptRuns.ScriptRunsIff: the catalogue holds tables, columns, keys and foreign key constraints. Names the server makes up for its own indexes and constraints and whether a default's text is a valid expression are not part of it; which kinds can be indexed and compared is a parameter of the server; its limits on the number of columns of a table or a key are not part of it either.
- Cycles.ErrorIffSomeTableNeverFills: a row's own table is left out of what it needs, as in the check, and deletes or updates between inserts are not modelled.
- Reservation.StepKeepsInv: the two inserts of a create, both unseen until the commit, are one step; descriptions, drawings and timestamps of a schema are dropped.
- SignUp.StepKeepsInv: password hashing, tokens, roles and the names and photo Google follows are opaque; accounts are not deleted while calls run.
- The documents of the RPC layer, listing and paging, roles and permissions, password reset, mail and configuration.
