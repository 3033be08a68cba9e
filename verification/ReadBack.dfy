/** What the reader makes of each statement of a generated script. */
module ReadBack {
  import opened Options
  import opened Strings
  import opened Domain
  import opened Scanning
  import opened Generator
  import opened ScriptTokens
  import opened ScriptScan
  import opened Cursors
  import opened TableParser
  import opened ParseTable
  import opened Statements
  import opened SqlReader

  // ----- one statement -----

  function TableOf(e: Entity): ParsedTable {
    ParsedTable(Trim(e.name), KeptColumns(e.attributes), [], [])
  }

  lemma TableClassified(e: Entity)
    requires TableReadable(e)
    ensures Classified(TableTokens(e)) == Table(TableOf(e))
  {
    hide Parsed, TableReadable;
    ParsedTableIs(e);
    assert TableTokens(e)[0] == Word("create");
  }

  function KeyOf(e: Entity, a: Attribute, target: Entity, key: Attribute): (string, ParsedForeignKey) {
    (Trim(e.name), ParsedForeignKey(Trim(a.name), Trim(target.name), Some(Trim(key.name))))
  }

  /** `(name)` read as a list of one name. */
  lemma OneNameRead(name: string, r: seq<Token>)
    ensures NameList([Punct('('), Quoted(name), Punct(')')] + r) == (Some([name]), r)
  {
    var all := [Punct('('), Quoted(name), Punct(')')] + r;
    assert all[1..] == [Quoted(name), Punct(')')] + r;
    assert all[1..][1..] == [Punct(')')] + r;
    assert all[1..][1..][1..] == r;
    assert [] + [name] == [name];
  }

  lemma AlterHeadRead(name: string, constraint: string, r: seq<Token>)
    ensures AlterHead([Word("alter"), Word("table"), Quoted(name), Word("add"), Word("constraint"), Quoted(constraint)] + r)
         == Some((name, r))
  {
    hide QualifiedName;
    var tail := [Word("add"), Word("constraint"), Quoted(constraint)] + r;
    var all := [Word("alter"), Word("table"), Quoted(name), Word("add"), Word("constraint"), Quoted(constraint)] + r;
    assert all[1..] == [Word("table")] + ([Quoted(name)] + tail);
    assert all[1..][1..] == [Quoted(name)] + tail;
    var rest := [Quoted(name)] + tail;
    assert rest[0] == Quoted(name);
    assert !AtWords(rest, ["if", "exists"]) by {
      assert ["if", "exists"][0] == "if";
    }
    QuotedNameRead(name, tail);
    assert tail[1..] == [Word("constraint"), Quoted(constraint)] + r;
    assert tail[1..][1..] == [Quoted(constraint)] + r;
    assert tail[1..][1..][1..] == r;
  }

  lemma KeyClauseRead(column: string, table: string, key: string)
    ensures KeyClause([Word("foreign"), Word("key"), Punct('('), Quoted(column), Punct(')'),
                       Word("references"), Quoted(table), Punct('('), Quoted(key), Punct(')')])
         == Some(ParsedForeignKey(column, table, Some(key)))
  {
    hide QualifiedName, NameList;
    var targets := [Punct('('), Quoted(key), Punct(')')];
    var after := [Word("references"), Quoted(table)] + targets;
    var all := [Word("foreign"), Word("key"), Punct('('), Quoted(column), Punct(')')] + after;
    assert AtWords(all, ["foreign", "key"]);
    assert all[2..] == [Punct('('), Quoted(column), Punct(')')] + after;
    OneNameRead(column, after);
    assert after[1..] == [Quoted(table)] + targets;
    QuotedNameRead(table, targets);
    assert targets + [] == targets;
    OneNameRead(key, []);
    assert all == [Word("foreign"), Word("key"), Punct('('), Quoted(column), Punct(')'),
                   Word("references"), Quoted(table), Punct('('), Quoted(key), Punct(')')];
  }

  lemma KeyClassified(e: Entity, a: Attribute, target: Entity, key: Attribute)
    ensures Classified(ForeignKeyTokens(e, a, target, key)) == ForeignKey(KeyOf(e, a, target, key).0, KeyOf(e, a, target, key).1)
  {
    hide AlterHead, KeyClause, ConstraintName, Trim, Parsed, Commented;
    var tokens := ForeignKeyTokens(e, a, target, key);
    var constraint := Trim(ConstraintName(e.name, a.name));
    var clause := [Word("foreign"), Word("key"), Punct('('), NameToken(a.name), Punct(')'),
                   Word("references"), NameToken(target.name), Punct('('), NameToken(key.name), Punct(')')];
    assert tokens == [Word("alter"), Word("table"), NameToken(e.name), Word("add"), Word("constraint"), Quoted(constraint)] + clause;
    AlterHeadRead(Trim(e.name), constraint, clause);
    KeyClauseRead(Trim(a.name), Trim(target.name), Trim(key.name));
    assert tokens[0] == Word("alter");
  }

  function TableCommentOf(e: Entity): Comment {
    Comment(Trim(e.name), None, Trim(e.description))
  }

  /** What a comment on `table.column` is taken for: its last dot divides. */
  function DividedComment(table: string, column: string, text: string): (c: Comment)
    ensures '.' !in column ==> c == Comment(table, Some(column), text)
  {
    var whole := table + "." + column;
    assert whole[|table|] == '.';
    assert '.' !in column ==> whole[..|table|] == table && whole[|table| + 1..] == column && LastDot(whole) == Some(|table|) by {
      if '.' !in column {
        LastDotIs(table, column);
      }
    }
    var dot := LastDot(whole).value;
    Comment(whole[..dot], Some(whole[dot + 1..]), text)
  }

  function ColumnCommentOf(e: Entity, a: Attribute): Comment {
    DividedComment(Trim(e.name), Trim(a.name), Trim(a.description))
  }

  lemma TableCommentClassified(e: Entity)
    ensures Classified(TableCommentTokens(e)) == Remark(TableCommentOf(e))
  {
    hide Trim, QualifiedName, Parsed, Altered;
    var tokens := TableCommentTokens(e);
    var end := [Word("is"), Token.Text(Trim(e.description))];
    assert tokens[0] == Word("comment") && tokens[1..] == [Word("on"), Word("table"), NameToken(e.name)] + end;
    assert tokens[1..][1..] == [Word("table"), NameToken(e.name)] + end;
    assert tokens[1..][1..][1..] == [NameToken(e.name)] + end;
    QuotedNameRead(Trim(e.name), end);
  }

  /** The last dot of `table.column` is the one between, if the column has none. */
  lemma {:induction false} LastDotIs(table: string, column: string)
    requires '.' !in column
    ensures LastDot(table + "." + column) == Some(|table|)
  {
    var s := table + "." + column;
    assert s[|table|] == '.';
    assert forall i :: |table| < i < |s| ==> s[i] == column[i - |table| - 1];
  }

  lemma DottedNameRead(table: string, column: string, r: seq<Token>)
    requires !AtPunct(r, '.')
    ensures QualifiedName([Quoted(table), Punct('.'), Quoted(column)] + r) == (Some(table + "." + column), r)
  {
    var all := [Quoted(table), Punct('.'), Quoted(column)] + r;
    assert all[1..] == [Punct('.'), Quoted(column)] + r;
    assert all[1..][2..] == r;
    assert MoreName(table + "." + column, r) == (Some(table + "." + column), r);
    assert MoreName(table, all[1..]) == MoreName(table + "." + column, r);
  }

  lemma ColumnCommentClassified(e: Entity, a: Attribute)
    ensures Classified(ColumnCommentTokens(e, a)) == Remark(ColumnCommentOf(e, a))
  {
    hide Trim, QualifiedName, Parsed, Altered, LastDot;
    var tokens := ColumnCommentTokens(e, a);
    var table, column := Trim(e.name), Trim(a.name);
    var end := [Word("is"), Token.Text(Trim(a.description))];
    var name := [Quoted(table), Punct('.'), Quoted(column)];
    assert tokens[0] == Word("comment") && tokens[1..] == [Word("on"), Word("column")] + (name + end);
    assert tokens[1..][1..] == [Word("column")] + (name + end);
    assert tokens[1..][1..][1..] == name + end;
    DottedNameRead(table, column, end);
    assert (table + "." + column)[|table|] == '.';
  }

  // ----- all of them -----

  function AllTables(entities: seq<Entity>): (r: seq<ParsedTable>)
    ensures |r| == |entities| && forall i :: 0 <= i < |r| ==> r[i] == TableOf(entities[i])
  {
    seq(|entities|, i requires 0 <= i < |entities| => TableOf(entities[i]))
  }

  function ColumnLateKeys(s: Schema, e: Entity, a: Attribute): seq<(string, ParsedForeignKey)> {
    match a.foreignKey
    case None => []
    case Some(reference) =>
      match s.Resolve(reference.entityId, reference.attributeId)
      case None => []
      case Some((t, k)) => [KeyOf(e, a, s.entities[t], s.entities[t].attributes[k])]
  }

  function TableLateKeys(s: Schema, e: Entity, n: nat): seq<(string, ParsedForeignKey)>
    requires n <= |e.attributes|
  {
    if n == 0 then [] else TableLateKeys(s, e, n - 1) + ColumnLateKeys(s, e, e.attributes[n - 1])
  }

  function LateKeysUpTo(s: Schema, n: nat): seq<(string, ParsedForeignKey)>
    requires n <= |s.entities|
  {
    if n == 0 then []
    else LateKeysUpTo(s, n - 1) + TableLateKeys(s, s.entities[n - 1], |s.entities[n - 1].attributes|)
  }

  function TableRemark(e: Entity): seq<Comment> {
    if e.IsDocumented() then [TableCommentOf(e)] else []
  }

  function ColumnRemark(e: Entity, a: Attribute): seq<Comment> {
    if a.IsDocumented() then [ColumnCommentOf(e, a)] else []
  }

  function Remarks(e: Entity, n: nat): seq<Comment>
    requires n <= |e.attributes|
  {
    if n == 0 then TableRemark(e) else Remarks(e, n - 1) + ColumnRemark(e, e.attributes[n - 1])
  }

  function RemarksUpTo(s: Schema, n: nat): seq<Comment>
    requires n <= |s.entities|
  {
    if n == 0 then []
    else RemarksUpTo(s, n - 1) + Remarks(s.entities[n - 1], |s.entities[n - 1].attributes|)
  }

  function AsTables(tables: seq<ParsedTable>): (r: seq<Meaning>)
    ensures |r| == |tables| && forall i :: 0 <= i < |r| ==> r[i] == Table(tables[i])
  {
    seq(|tables|, i requires 0 <= i < |tables| => Table(tables[i]))
  }

  function AsKeys(keys: seq<(string, ParsedForeignKey)>): (r: seq<Meaning>)
    ensures |r| == |keys| && forall i :: 0 <= i < |r| ==> r[i] == ForeignKey(keys[i].0, keys[i].1)
  {
    seq(|keys|, i requires 0 <= i < |keys| => ForeignKey(keys[i].0, keys[i].1))
  }

  function AsRemarks(comments: seq<Comment>): (r: seq<Meaning>)
    ensures |r| == |comments| && forall i :: 0 <= i < |r| ==> r[i] == Remark(comments[i])
  {
    seq(|comments|, i requires 0 <= i < |comments| => Remark(comments[i]))
  }

  /** Each statement means what stands in its place. */
  ghost predicate AllMean(tokens: seq<seq<Token>>, meanings: seq<Meaning>) {
    |tokens| == |meanings| && forall i :: 0 <= i < |tokens| ==> Classified(tokens[i]) == meanings[i]
  }

  lemma AllMeanAppend(a: seq<seq<Token>>, ma: seq<Meaning>, b: seq<seq<Token>>, mb: seq<Meaning>)
    requires AllMean(a, ma) && AllMean(b, mb)
    ensures AllMean(a + b, ma + mb)
  {
    hide Classified;
  }

  lemma {:induction false} TableKeysMean(s: Schema, e: Entity, n: nat)
    requires n <= |e.attributes|
    ensures AllMean(TableKeyTokens(s, e, n), AsKeys(TableLateKeys(s, e, n)))
  {
    hide Classified, ForeignKeyTokens, KeyOf, Schema.Resolve;
    if n > 0 {
      TableKeysMean(s, e, n - 1);
      var a := e.attributes[n - 1];
      if a.foreignKey.Some? {
        var found := s.Resolve(a.foreignKey.value.entityId, a.foreignKey.value.attributeId);
        if found.Some? {
          KeyClassified(e, a, s.entities[found.value.0], s.entities[found.value.0].attributes[found.value.1]);
        }
      }
      AllMeanAppend(TableKeyTokens(s, e, n - 1), AsKeys(TableLateKeys(s, e, n - 1)),
                    ColumnKeyTokens(s, e, a), AsKeys(ColumnLateKeys(s, e, a)));
      assert AsKeys(TableLateKeys(s, e, n)) == AsKeys(TableLateKeys(s, e, n - 1)) + AsKeys(ColumnLateKeys(s, e, a));
    }
  }

  lemma {:induction false} KeysMean(s: Schema, n: nat)
    requires n <= |s.entities|
    ensures AllMean(KeyTokensUpTo(s, n), AsKeys(LateKeysUpTo(s, n)))
  {
    hide Classified, TableKeyTokens, TableLateKeys;
    if n > 0 {
      KeysMean(s, n - 1);
      var e := s.entities[n - 1];
      TableKeysMean(s, e, |e.attributes|);
      AllMeanAppend(KeyTokensUpTo(s, n - 1), AsKeys(LateKeysUpTo(s, n - 1)),
                    TableKeyTokens(s, e, |e.attributes|), AsKeys(TableLateKeys(s, e, |e.attributes|)));
      assert AsKeys(LateKeysUpTo(s, n)) == AsKeys(LateKeysUpTo(s, n - 1)) + AsKeys(TableLateKeys(s, e, |e.attributes|));
    }
  }

  lemma {:induction false} RemarksMean(e: Entity, n: nat)
    requires n <= |e.attributes|
    ensures AllMean(CommentTokens(e, n), AsRemarks(Remarks(e, n)))
  {
    hide Classified, TableCommentTokens, ColumnCommentTokens, Trim;
    if n == 0 {
      TableCommentClassified(e);
    } else {
      RemarksMean(e, n - 1);
      var a := e.attributes[n - 1];
      if a.IsDocumented() {
        ColumnCommentClassified(e, a);
      }
      AllMeanAppend(CommentTokens(e, n - 1), AsRemarks(Remarks(e, n - 1)), ColumnCommentList(e, a), AsRemarks(ColumnRemark(e, a)));
      assert AsRemarks(Remarks(e, n)) == AsRemarks(Remarks(e, n - 1)) + AsRemarks(ColumnRemark(e, a));
    }
  }

  lemma {:induction false} AllRemarksMean(s: Schema, n: nat)
    requires n <= |s.entities|
    ensures AllMean(CommentTokensUpTo(s, n), AsRemarks(RemarksUpTo(s, n)))
  {
    hide Classified, CommentTokens, Remarks;
    if n > 0 {
      AllRemarksMean(s, n - 1);
      var e := s.entities[n - 1];
      RemarksMean(e, |e.attributes|);
      AllMeanAppend(CommentTokensUpTo(s, n - 1), AsRemarks(RemarksUpTo(s, n - 1)),
                    CommentTokens(e, |e.attributes|), AsRemarks(Remarks(e, |e.attributes|)));
      assert AsRemarks(RemarksUpTo(s, n)) == AsRemarks(RemarksUpTo(s, n - 1)) + AsRemarks(Remarks(e, |e.attributes|));
    }
  }

  // ----- sorted -----

  function Numbers(n: nat): (r: seq<nat>)
    ensures |r| == n && forall i :: 0 <= i < n ==> r[i] == i
  {
    seq(n, i => i)
  }

  lemma {:induction false} SortedTables(statements: seq<seq<Token>>, tables: seq<ParsedTable>, n: nat)
    requires n <= |tables| <= |statements| && forall i :: 0 <= i < |tables| ==> Classified(statements[i]) == Table(tables[i])
    ensures SortedUpTo(statements, n) == Sorted(tables[..n], Numbers(n), [], [], 0)
  {
    hide Classified;
    if n > 0 {
      SortedTables(statements, tables, n - 1);
      assert tables[..n] == tables[..n - 1] + [tables[n - 1]];
      assert Numbers(n) == Numbers(n - 1) + [n - 1];
    } else {
      assert Numbers(0) == [];
    }
  }

  lemma {:induction false} SortedKeys(statements: seq<seq<Token>>, start: nat, keys: seq<(string, ParsedForeignKey)>, n: nat)
    requires n <= |keys| && start + |keys| <= |statements|
    requires forall i :: 0 <= i < |keys| ==> Classified(statements[start + i]) == ForeignKey(keys[i].0, keys[i].1)
    ensures var before := SortedUpTo(statements, start);
            SortedUpTo(statements, start + n) == before.(lateKeys := before.lateKeys + keys[..n])
  {
    hide Classified;
    var before := SortedUpTo(statements, start);
    if n > 0 {
      SortedKeys(statements, start, keys, n - 1);
      assert Classified(statements[start + (n - 1)]) == ForeignKey(keys[n - 1].0, keys[n - 1].1);
      assert before.lateKeys + keys[..n] == before.lateKeys + keys[..n - 1] + [keys[n - 1]];
    } else {
      assert before.lateKeys + keys[..0] == before.lateKeys;
    }
  }

  lemma {:induction false} SortedComments(statements: seq<seq<Token>>, start: nat, comments: seq<Comment>, n: nat)
    requires n <= |comments| && start + |comments| <= |statements|
    requires forall i :: 0 <= i < |comments| ==> Classified(statements[start + i]) == Remark(comments[i])
    ensures var before := SortedUpTo(statements, start);
            SortedUpTo(statements, start + n) == before.(comments := before.comments + comments[..n])
  {
    hide Classified;
    var before := SortedUpTo(statements, start);
    if n > 0 {
      SortedComments(statements, start, comments, n - 1);
      assert Classified(statements[start + (n - 1)]) == Remark(comments[n - 1]);
      assert before.comments + comments[..n] == before.comments + comments[..n - 1] + [comments[n - 1]];
    } else {
      assert before.comments + comments[..0] == before.comments;
    }
  }

  /** From `start` on the statements mean these things. */
  ghost predicate RunMeans(statements: seq<seq<Token>>, start: nat, meanings: seq<Meaning>) {
    start + |meanings| <= |statements| && forall i :: 0 <= i < |meanings| ==> Classified(statements[start + i]) == meanings[i]
  }

  lemma PartMeans(before: seq<seq<Token>>, run: seq<seq<Token>>, after: seq<seq<Token>>, meanings: seq<Meaning>)
    requires AllMean(run, meanings)
    ensures RunMeans(before + run + after, |before|, meanings)
  {
    hide Classified;
    var statements := before + run + after;
    forall i | 0 <= i < |meanings|
      ensures Classified(statements[|before| + i]) == meanings[i]
    {
      assert statements[|before| + i] == run[i];
    }
  }

  lemma TablesRunSorts(statements: seq<seq<Token>>, tables: seq<ParsedTable>)
    requires RunMeans(statements, 0, AsTables(tables))
    ensures SortedUpTo(statements, |tables|) == Sorted(tables, Numbers(|tables|), [], [], 0)
  {
    hide Classified, SortedUpTo, Numbers;
    forall i | 0 <= i < |tables|
      ensures Classified(statements[i]) == Table(tables[i])
    {
      assert statements[0 + i] == statements[i] && AsTables(tables)[i] == Table(tables[i]);
    }
    SortedTables(statements, tables, |tables|);
    assert tables[..|tables|] == tables;
  }

  lemma KeysRunSorts(statements: seq<seq<Token>>, start: nat, keys: seq<(string, ParsedForeignKey)>)
    requires RunMeans(statements, start, AsKeys(keys)) && SortedUpTo(statements, start).lateKeys == []
    ensures SortedUpTo(statements, start + |keys|) == SortedUpTo(statements, start).(lateKeys := keys)
  {
    hide Classified, SortedUpTo;
    SortedKeys(statements, start, keys, |keys|);
    assert [] + keys[..|keys|] == keys;
  }

  lemma CommentsRunSorts(statements: seq<seq<Token>>, start: nat, comments: seq<Comment>)
    requires RunMeans(statements, start, AsRemarks(comments)) && SortedUpTo(statements, start).comments == []
    ensures SortedUpTo(statements, start + |comments|) == SortedUpTo(statements, start).(comments := comments)
  {
    hide Classified, SortedUpTo;
    SortedComments(statements, start, comments, |comments|);
    assert [] + comments[..|comments|] == comments;
  }

  lemma TablesMean(entities: seq<Entity>)
    requires forall i :: 0 <= i < |entities| ==> TableReadable(entities[i])
    ensures AllMean(AllTableTokens(entities), AsTables(AllTables(entities)))
  {
    hide Classified, TableReadable, TableTokens, TableOf;
    forall i | 0 <= i < |entities|
      ensures Classified(AllTableTokens(entities)[i]) == AsTables(AllTables(entities))[i]
    {
      TableClassified(entities[i]);
    }
  }

  /** A generated script sorts into its own tables, keys and comments, with
      nothing skipped. */
  lemma ScriptSorts(s: Schema, options: GenerateOptions)
    requires options.includeComments
    requires forall i :: 0 <= i < |s.entities| ==> TableReadable(s.entities[i])
    ensures var statements := ScriptStatements(s, options);
            SortedUpTo(statements, |statements|)
              == Sorted(AllTables(s.entities), Numbers(|s.entities|), LateKeysUpTo(s, |s.entities|), RemarksUpTo(s, |s.entities|), 0)
  {
    hide AllMean, RunMeans, AllTableTokens, TableReadable, KeyTokensUpTo, CommentTokensUpTo, LateKeysUpTo, RemarksUpTo, SortedUpTo, Numbers;
    hide AsTables, AsKeys, AsRemarks, AllTables;
    var n := |s.entities|;
    var tableTokens, keyTokens, commentTokens := AllTableTokens(s.entities), KeyTokensUpTo(s, n), CommentTokensUpTo(s, n);
    var tables, keys, comments := AllTables(s.entities), LateKeysUpTo(s, n), RemarksUpTo(s, n);
    var statements := tableTokens + keyTokens + commentTokens;
    TablesMean(s.entities);
    KeysMean(s, n);
    AllRemarksMean(s, n);
    MeanLengths(tableTokens, AsTables(tables));
    MeanLengths(keyTokens, AsKeys(keys));
    MeanLengths(commentTokens, AsRemarks(comments));
    assert [] + tableTokens + (keyTokens + commentTokens) == statements && statements + [] == statements;
    PartMeans([], tableTokens, keyTokens + commentTokens, AsTables(tables));
    PartMeans(tableTokens, keyTokens, commentTokens, AsKeys(keys));
    PartMeans(tableTokens + keyTokens, commentTokens, [], AsRemarks(comments));
    TablesRunSorts(statements, tables);
    KeysRunSorts(statements, |tables|, keys);
    CommentsRunSorts(statements, |tables| + |keys|, comments);
  }

  lemma MeanLengths(tokens: seq<seq<Token>>, meanings: seq<Meaning>)
    requires AllMean(tokens, meanings)
    ensures |tokens| == |meanings|
  {
  }
}
