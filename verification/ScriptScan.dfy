/** The scan of a whole generated script. */
module ScriptScan {
  import opened Options
  import opened Strings
  import opened Domain
  import opened Scanning
  import opened Generator
  import opened ScriptTokens
  import opened Script

  // ----- the statements of a script, as tokens -----

  function AllTableTokens(entities: seq<Entity>): (r: seq<seq<Token>>)
    ensures |r| == |entities| && forall i :: 0 <= i < |r| ==> r[i] == TableTokens(entities[i])
  {
    seq(|entities|, i requires 0 <= i < |entities| => TableTokens(entities[i]))
  }

  function ColumnKeyTokens(s: Schema, e: Entity, a: Attribute): seq<seq<Token>> {
    match a.foreignKey
    case None => []
    case Some(reference) =>
      match s.Resolve(reference.entityId, reference.attributeId)
      case None => []
      case Some((t, k)) => [ForeignKeyTokens(e, a, s.entities[t], s.entities[t].attributes[k])]
  }

  function TableKeyTokens(s: Schema, e: Entity, n: nat): seq<seq<Token>>
    requires n <= |e.attributes|
  {
    if n == 0 then [] else TableKeyTokens(s, e, n - 1) + ColumnKeyTokens(s, e, e.attributes[n - 1])
  }

  function KeyTokensUpTo(s: Schema, n: nat): seq<seq<Token>>
    requires n <= |s.entities|
  {
    if n == 0 then []
    else KeyTokensUpTo(s, n - 1) + TableKeyTokens(s, s.entities[n - 1], |s.entities[n - 1].attributes|)
  }

  function TableCommentList(e: Entity): seq<seq<Token>> {
    if e.IsDocumented() then [TableCommentTokens(e)] else []
  }

  function ColumnCommentList(e: Entity, a: Attribute): seq<seq<Token>> {
    if a.IsDocumented() then [ColumnCommentTokens(e, a)] else []
  }

  function CommentTokens(e: Entity, n: nat): seq<seq<Token>>
    requires n <= |e.attributes|
  {
    if n == 0 then TableCommentList(e) else CommentTokens(e, n - 1) + ColumnCommentList(e, e.attributes[n - 1])
  }

  function CommentTokensUpTo(s: Schema, n: nat): seq<seq<Token>>
    requires n <= |s.entities|
  {
    if n == 0 then []
    else CommentTokensUpTo(s, n - 1) + CommentTokens(s.entities[n - 1], |s.entities[n - 1].attributes|)
  }

  function ScriptStatements(s: Schema, options: GenerateOptions): seq<seq<Token>> {
    AllTableTokens(s.entities) + KeyTokensUpTo(s, |s.entities|)
    + (if options.includeComments then CommentTokensUpTo(s, |s.entities|) else [])
  }

  /** Each table's hint, above the table's own statement. */
  function ScriptHints(s: Schema, options: GenerateOptions): (r: seq<LayoutHint>)
    ensures options.includePositions ==>
      |r| == |s.entities| && forall i :: 0 <= i < |r| ==> r[i] == HintOf(s.entities[i], i)
    ensures !options.includePositions ==> r == []
  {
    if options.includePositions then
      seq(|s.entities|, i requires 0 <= i < |s.entities| => HintOf(s.entities[i], i))
    else []
  }

  // ----- the blocks -----

  /** What a script can carry for a table: defaults that scan on their own, and
      a name without a line break if its place is on a comment line. */
  ghost predicate TablePrintable(e: Entity, options: GenerateOptions) {
    && (options.includePositions ==> OneLine(Trim(e.name)))
    && forall i :: 0 <= i < |e.attributes| ==> DefaultLexes(e.attributes[i])
  }

  ghost predicate Printable(s: Schema, options: GenerateOptions) {
    forall i :: 0 <= i < |s.entities| ==> TablePrintable(s.entities[i], options)
  }

  function TableParts(e: Entity, includePositions: bool): seq<Part> {
    (if includePositions then [Place(e)] else []) + [Statement(TableTokens(e))]
  }

  lemma TableBlockIs(e: Entity, options: GenerateOptions)
    requires TablePrintable(e, options)
    ensures Block(TableBlock(e, options.includePositions), TableParts(e, options.includePositions))
  {
    hide Block, TableTokens, CreateTable, PositionLine, DefaultLexes, OneLine;
    TableWhole(e);
    WholeIsBlock(CreateTable(e), TableTokens(e));
    if options.includePositions {
      HintBlock(e);
      BlockAppend(PositionLine(e) + "\n", [Place(e)], CreateTable(e), [Statement(TableTokens(e))]);
    } else {
      assert [] + [Statement(TableTokens(e))] == [Statement(TableTokens(e))];
    }
  }

  function Statements(tokens: seq<seq<Token>>): (r: seq<Part>)
    ensures |r| == |tokens| && forall i :: 0 <= i < |r| ==> r[i] == Statement(tokens[i])
  {
    seq(|tokens|, i requires 0 <= i < |tokens| => Statement(tokens[i]))
  }

  function Singles(tokens: seq<seq<Token>>): (r: seq<seq<Part>>)
    ensures |r| == |tokens| && forall i :: 0 <= i < |r| ==> r[i] == [Statement(tokens[i])]
  {
    seq(|tokens|, i requires 0 <= i < |tokens| => [Statement(tokens[i])])
  }

  lemma {:induction false} JoinSingles(tokens: seq<seq<Token>>)
    ensures JoinParts(Singles(tokens)) == Statements(tokens)
  {
    if tokens != [] {
      assert Singles(tokens)[1..] == Singles(tokens[1..]);
      JoinSingles(tokens[1..]);
    }
  }

  /** Each text is a whole statement of the tokens in its place. */
  ghost predicate AllWhole(texts: seq<string>, tokens: seq<seq<Token>>) {
    |texts| == |tokens| && forall i :: 0 <= i < |texts| ==> Whole(texts[i], tokens[i])
  }

  lemma AllWholeAppend(a: seq<string>, ta: seq<seq<Token>>, b: seq<string>, tb: seq<seq<Token>>)
    requires AllWhole(a, ta) && AllWhole(b, tb)
    ensures AllWhole(a + b, ta + tb)
  {
    hide Whole;
  }

  lemma {:induction false} TableKeysWhole(s: Schema, e: Entity, n: nat)
    requires n <= |e.attributes|
    ensures AllWhole(TableKeys(s, e, n), TableKeyTokens(s, e, n))
  {
    hide Whole, ForeignKeyStatement, ForeignKeyTokens, Schema.Resolve;
    if n > 0 {
      TableKeysWhole(s, e, n - 1);
      var a := e.attributes[n - 1];
      if a.foreignKey.Some? {
        var found := s.Resolve(a.foreignKey.value.entityId, a.foreignKey.value.attributeId);
        if found.Some? {
          ForeignKeyWhole(e, a, s.entities[found.value.0], s.entities[found.value.0].attributes[found.value.1]);
        }
      }
      AllWholeAppend(TableKeys(s, e, n - 1), TableKeyTokens(s, e, n - 1), ColumnKey(s, e, a), ColumnKeyTokens(s, e, a));
    }
  }

  lemma {:induction false} KeysWhole(s: Schema, n: nat)
    requires n <= |s.entities|
    ensures AllWhole(KeysUpTo(s, n), KeyTokensUpTo(s, n))
  {
    hide AllWhole, TableKeys, TableKeyTokens;
    if n == 0 {
      assert AllWhole([], []) by {
        NoneWhole();
      }
    } else {
      KeysWhole(s, n - 1);
      var e := s.entities[n - 1];
      TableKeysWhole(s, e, |e.attributes|);
      AllWholeAppend(KeysUpTo(s, n - 1), KeyTokensUpTo(s, n - 1), TableKeys(s, e, |e.attributes|), TableKeyTokens(s, e, |e.attributes|));
    }
  }

  lemma NoneWhole()
    ensures AllWhole([], [])
  {
  }

  lemma {:induction false} ColumnCommentsWhole(e: Entity, n: nat)
    requires n <= |e.attributes|
    ensures AllWhole(ColumnComments(e, n), CommentTokens(e, n))
  {
    hide Whole, Quote, Literal, TableCommentTokens, ColumnCommentTokens, Trim;
    if n == 0 {
      TableCommentWhole(e);
    } else {
      ColumnCommentsWhole(e, n - 1);
      var a := e.attributes[n - 1];
      ColumnCommentWhole(e, a);
      AllWholeAppend(ColumnComments(e, n - 1), CommentTokens(e, n - 1), ColumnComment(e, a), ColumnCommentList(e, a));
    }
  }

  lemma {:induction false} CommentsWhole(s: Schema, n: nat)
    requires n <= |s.entities|
    ensures AllWhole(CommentsUpTo(s, n), CommentTokensUpTo(s, n))
  {
    hide AllWhole, ColumnComments, CommentTokens;
    if n == 0 {
      NoneWhole();
    } else {
      CommentsWhole(s, n - 1);
      var e := s.entities[n - 1];
      ColumnCommentsWhole(e, |e.attributes|);
      AllWholeAppend(CommentsUpTo(s, n - 1), CommentTokensUpTo(s, n - 1), ColumnComments(e, |e.attributes|), CommentTokens(e, |e.attributes|));
    }
  }

  function AllTableParts(entities: seq<Entity>, includePositions: bool): (r: seq<seq<Part>>)
    ensures |r| == |entities| && forall i :: 0 <= i < |r| ==> r[i] == TableParts(entities[i], includePositions)
  {
    seq(|entities|, i requires 0 <= i < |entities| => TableParts(entities[i], includePositions))
  }

  lemma WholesAreBlocks(texts: seq<string>, tokens: seq<seq<Token>>)
    requires AllWhole(texts, tokens)
    ensures forall i :: 0 <= i < |texts| ==> Block(texts[i], Singles(tokens)[i])
  {
    hide Whole, Block;
    forall i | 0 <= i < |texts|
      ensures Block(texts[i], Singles(tokens)[i])
    {
      WholeIsBlock(texts[i], tokens[i]);
    }
  }

  /** The parts of the comment block, if there is one. */
  function CommentParts(s: Schema, includeComments: bool): seq<seq<Part>> {
    var tokens := CommentTokensUpTo(s, |s.entities|);
    if includeComments && CommentsUpTo(s, |s.entities|) != [] then [Statements(tokens)] else []
  }

  lemma CommentBlockIs(s: Schema, includeComments: bool)
    ensures |CommentBlocks(s, includeComments)| == |CommentParts(s, includeComments)|
    ensures forall i :: 0 <= i < |CommentBlocks(s, includeComments)| ==>
      Block(CommentBlocks(s, includeComments)[i], CommentParts(s, includeComments)[i])
  {
    hide Whole, Block, CommentsUpTo, CommentTokensUpTo;
    var texts, tokens := CommentsUpTo(s, |s.entities|), CommentTokensUpTo(s, |s.entities|);
    CommentsWhole(s, |s.entities|);
    WholesAreBlocks(texts, tokens);
    JoinBlock(texts, Singles(tokens), "\n");
    JoinSingles(tokens);
  }

  function ScriptParts(s: Schema, options: GenerateOptions): seq<seq<Part>> {
    AllTableParts(s.entities, options.includePositions)
    + Singles(KeyTokensUpTo(s, |s.entities|))
    + CommentParts(s, options.includeComments)
  }

  lemma ScriptBlock(s: Schema, options: GenerateOptions)
    requires Printable(s, options)
    ensures Block(Generated(s, options), JoinParts(ScriptParts(s, options)))
  {
    hide Whole, Block, KeysUpTo, KeyTokensUpTo, CommentBlocks, CommentParts, TableBlock, TableParts, TablePrintable;
    var blocks, parts := Blocks(s, options), ScriptParts(s, options);
    var keys, keyTokens := KeysUpTo(s, |s.entities|), KeyTokensUpTo(s, |s.entities|);
    KeysWhole(s, |s.entities|);
    WholesAreBlocks(keys, keyTokens);
    CommentBlockIs(s, options.includeComments);
    forall i | 0 <= i < |blocks|
      ensures Block(blocks[i], parts[i])
    {
      if i < |s.entities| {
        TableBlockIs(s.entities[i], options);
      } else if i < |s.entities| + |keys| {
        assert blocks[i] == keys[i - |s.entities|];
        assert parts[i] == Singles(keyTokens)[i - |s.entities|];
      } else {
        assert blocks[i] == CommentBlocks(s, options.includeComments)[i - |s.entities| - |keys|];
        assert parts[i] == CommentParts(s, options.includeComments)[i - |s.entities| - |keys|];
      }
    }
    JoinBlock(blocks, parts, "\n\n");
  }

  // ----- what the parts add up to -----

  lemma {:induction false} AddStatements(scan: Scan, tokens: seq<seq<Token>>)
    ensures AddParts(scan, Statements(tokens)) == scan.(statements := scan.statements + tokens)
    decreases |tokens|
  {
    if tokens == [] {
      assert scan.statements + [] == scan.statements;
    } else {
      var next := scan.(statements := scan.statements + [tokens[0]]);
      assert Statements(tokens)[1..] == Statements(tokens[1..]);
      AddStatements(next, tokens[1..]);
      assert scan.statements + [tokens[0]] + tokens[1..] == scan.statements + tokens;
    }
  }

  function TableScan(entities: seq<Entity>, includePositions: bool): Scan {
    Scan(AllTableTokens(entities),
         if includePositions then seq(|entities|, i requires 0 <= i < |entities| => HintOf(entities[i], i)) else [],
         [])
  }

  lemma AddTable(scan: Scan, e: Entity, includePositions: bool)
    ensures AddParts(scan, TableParts(e, includePositions)) ==
      scan.(statements := scan.statements + [TableTokens(e)],
            hints := if includePositions then scan.hints + [HintOf(e, |scan.statements|)] else scan.hints)
  {
    hide TableTokens, HintOf;
    var parts := TableParts(e, includePositions);
    if includePositions {
      var next := scan.(hints := scan.hints + [HintOf(e, |scan.statements|)]);
      assert parts[1..] == [Statement(TableTokens(e))];
      assert AddParts(scan, parts) == AddParts(next, [Statement(TableTokens(e))]);
      assert [Statement(TableTokens(e))][1..] == [];
    } else {
      assert parts == [Statement(TableTokens(e))];
      assert [Statement(TableTokens(e))][1..] == [];
    }
  }

  lemma {:induction false} AddTables(entities: seq<Entity>, includePositions: bool)
    ensures AddParts(EMPTY, JoinParts(AllTableParts(entities, includePositions))) == TableScan(entities, includePositions)
    decreases |entities|
  {
    hide AddParts, TableParts, TableTokens, HintOf;
    if entities == [] {
      assert AddParts(EMPTY, []) == EMPTY by {
        AddNothing(EMPTY);
      }
      assert TableScan([], includePositions) == EMPTY;
    } else {
      var front, last := entities[..|entities| - 1], entities[|entities| - 1];
      var parts, lastParts := AllTableParts(front, includePositions), [TableParts(last, includePositions)];
      assert AllTableParts(entities, includePositions) == parts + lastParts;
      JoinPartsAppend(parts, lastParts);
      assert JoinParts(lastParts) == TableParts(last, includePositions) by {
        assert lastParts[1..] == [];
        assert TableParts(last, includePositions) + [] == TableParts(last, includePositions);
      }
      AddTables(front, includePositions);
      AddPartsAppend(EMPTY, JoinParts(parts), TableParts(last, includePositions));
      AddTable(TableScan(front, includePositions), last, includePositions);
      assert AllTableTokens(entities) == AllTableTokens(front) + [TableTokens(last)];
      assert TableScan(entities, includePositions).hints ==
        if includePositions then TableScan(front, includePositions).hints + [HintOf(last, |front|)] else [];
    }
  }

  lemma AddNothing(scan: Scan)
    ensures AddParts(scan, []) == scan
  {
  }

  lemma CommentPartsAre(s: Schema, includeComments: bool)
    ensures JoinParts(CommentParts(s, includeComments))
         == Statements(if includeComments then CommentTokensUpTo(s, |s.entities|) else [])
  {
    hide CommentsUpTo, CommentTokensUpTo;
    CommentsWhole(s, |s.entities|);
    var parts := CommentParts(s, includeComments);
    if parts != [] {
      assert parts[1..] == [];
      assert parts[0] + [] == parts[0];
    }
  }

  /** Scanning a generated script gives one statement for each table, foreign
      key and comment, in that order, and each table's hint above its own
      statement, whatever is written inside names and descriptions. */
  lemma ScanOfScript(s: Schema, options: GenerateOptions)
    requires Printable(s, options)
    ensures ScanFrom(Generated(s, options), EMPTY) == Scan(ScriptStatements(s, options), ScriptHints(s, options), [])
  {
    hide Block, Generated, AddParts, KeyTokensUpTo, CommentParts, CommentTokensUpTo, AllTableParts, AllTableTokens, JoinParts, HintOf, Printable;
    var script, tables := Generated(s, options), AllTableParts(s.entities, options.includePositions);
    var keys := KeyTokensUpTo(s, |s.entities|);
    var comments := if options.includeComments then CommentTokensUpTo(s, |s.entities|) else [];
    ScriptBlock(s, options);
    BlockScans(script, JoinParts(ScriptParts(s, options)));
    JoinPartsAppend(tables + Singles(keys), CommentParts(s, options.includeComments));
    JoinPartsAppend(tables, Singles(keys));
    JoinSingles(keys);
    CommentPartsAre(s, options.includeComments);
    AddTables(s.entities, options.includePositions);
    AddPartsAppend(EMPTY, JoinParts(tables) + Statements(keys), Statements(comments));
    AddPartsAppend(EMPTY, JoinParts(tables), Statements(keys));
    AddStatements(TableScan(s.entities, options.includePositions), keys);
    AddStatements(AddParts(EMPTY, JoinParts(tables) + Statements(keys)), comments);
    assert ScriptHints(s, options) == TableScan(s.entities, options.includePositions).hints;
  }

  lemma BlockScans(text: string, parts: seq<Part>)
    requires Block(text, parts)
    ensures ScanFrom(text, EMPTY) == AddParts(EMPTY, parts)
  {
    hide AddParts;
    assert text + "" == text;
    assert ScanFrom(text + "", EMPTY) == ScanFrom("", AddParts(EMPTY, parts));
  }
}
