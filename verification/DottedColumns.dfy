/** A comment names its column after the last dot, so a column with a dot in its
    name is never described, whatever the script says. */
module DottedColumns {
  import opened Options
  import opened Strings
  import opened Domain
  import opened Scanning
  import opened Cursors
  import opened TableParser
  import opened Statements
  import opened SqlReader

  predicate Dotless(c: Comment) {
    c.column.Some? ==> '.' !in c.column.value
  }

  lemma RemarkDotless(tokens: seq<Token>)
    requires Classified(tokens).Remark?
    ensures Dotless(Classified(tokens).comment)
  {
    hide Parsed, Altered, Commented;
    AlteredIsNoRemark(tokens);
    CommentedDotless(tokens);
  }

  lemma AlteredIsNoRemark(tokens: seq<Token>)
    ensures !Altered(tokens).Remark?
  {
    hide AlterHead, KeyClause;
  }

  lemma CommentedDotless(tokens: seq<Token>)
    ensures Commented(tokens).Remark? ==> Dotless(Commented(tokens).comment)
  {
    hide QualifiedName, Eaten;
  }

  lemma {:induction false} CommentsDotless(statements: seq<seq<Token>>, n: nat)
    requires n <= |statements|
    ensures forall c :: c in SortedUpTo(statements, n).comments ==> Dotless(c)
  {
    hide Classified, Dotless;
    if n > 0 {
      CommentsDotless(statements, n - 1);
      if Classified(statements[n - 1]).Remark? {
        RemarkDotless(statements[n - 1]);
      }
    }
  }

  predicate ColumnSilent(a: Attribute) {
    '.' in a.name ==> a.description == ""
  }

  predicate TableSilent(e: Entity) {
    forall k :: 0 <= k < |e.attributes| ==> ColumnSilent(e.attributes[k])
  }

  predicate Silent(entities: seq<Entity>) {
    forall i :: 0 <= i < |entities| ==> TableSilent(entities[i])
  }

  /** Letter case does not touch a dot. */
  lemma SameDots(a: string, b: string)
    requires Same(a, b) && '.' in a
    ensures '.' in b
  {
    var i :| 0 <= i < |a| && a[i] == '.';
    assert Lower(a)[i] == '.';
    assert LowerChar(b[i]) == Lower(b)[i] == '.';
    assert b[i] == '.';
  }

  lemma {:induction false} AddedSilent(i: Import, tables: seq<ParsedTable>, n: nat, uuid: nat -> string)
    requires Silent(i.entities) && n <= |tables|
    ensures Silent(AddedUpTo(i, tables, n, uuid).entities)
  {
    if n > 0 {
      AddedSilent(i, tables, n - 1, uuid);
    }
  }

  lemma JoinedSilent(i: Import, holder: string, key: ParsedForeignKey, uuid: nat -> string)
    requires Silent(i.entities)
    ensures Silent(Linked(i, holder, key, uuid).entities)
  {
    hide LinkOf, Entity.AttributeAt;
    match LinkOf(i.entities, holder, key) {
      case None =>
      case Some(link) =>
        assert TableSilent(i.entities[link.holder]);
    }
  }

  lemma {:induction false} LinkedSilent(i: Import, keys: seq<(string, ParsedForeignKey)>, n: nat, uuid: nat -> string)
    requires Silent(i.entities) && n <= |keys|
    ensures Silent(LinkedUpTo(i, keys, n, uuid).entities)
  {
    hide Silent, Linked;
    if n > 0 {
      LinkedSilent(i, keys, n - 1, uuid);
      JoinedSilent(LinkedUpTo(i, keys, n - 1, uuid), keys[n - 1].0, keys[n - 1].1, uuid);
    }
  }

  lemma DescribedSilent(i: Import, comment: Comment)
    requires Silent(i.entities) && Dotless(comment)
    ensures Silent(Described(i, comment).entities)
  {
    hide FindTable, Entity.AttributeByName;
    match FindTable(i.entities, comment.table) {
      case None =>
      case Some(at) =>
        var e := i.entities[at];
        assert TableSilent(e);
        if comment.column.Some? {
          var found := e.AttributeByName(comment.column.value);
          if found.Some? && '.' in e.attributes[found.value].name {
            SameDots(e.attributes[found.value].name, comment.column.value);
          }
        }
    }
  }

  lemma {:induction false} AllDescribedSilent(i: Import, comments: seq<Comment>, n: nat)
    requires Silent(i.entities) && n <= |comments| && forall c :: c in comments ==> Dotless(c)
    ensures Silent(DescribedUpTo(i, comments, n).entities)
  {
    hide Silent, Described, Dotless;
    if n > 0 {
      AllDescribedSilent(i, comments, n - 1);
      DescribedSilent(DescribedUpTo(i, comments, n - 1), comments[n - 1]);
    }
  }

  /** For every script that is accepted: no column with a dot in its name has a
      description. */
  lemma DottedColumnsStaySilent(scan: Scan, includePositions: bool, uuid: nat -> string)
    requires Imported(scan, includePositions, uuid).Some?
    ensures Silent(Imported(scan, includePositions, uuid).value.entities)
  {
    hide Silent, SortedUpTo, AddedUpTo, LinkedUpTo, DescribedUpTo, AllKeys, Dotless, Placed;
    var sorted := SortedUpTo(scan.statements, |scan.statements|);
    CommentsDotless(scan.statements, |scan.statements|);
    var started := Import([], [], Notes(sorted.skipped), 0);
    assert Silent(started.entities) by {
      NothingSilent();
    }
    AddedSilent(started, sorted.tables, |sorted.tables|, uuid);
    var added := AddedUpTo(started, sorted.tables, |sorted.tables|, uuid);
    LinkedSilent(added, AllKeys(sorted), |AllKeys(sorted)|, uuid);
    var linked := LinkedUpTo(added, AllKeys(sorted), |AllKeys(sorted)|, uuid);
    AllDescribedSilent(linked, sorted.comments, |sorted.comments|);
    PlacedSilent(Assembled(sorted, uuid).entities, scan.hints, sorted.tableAt, includePositions);
  }

  lemma NothingSilent()
    ensures Silent([])
  {
  }

  lemma PlacedSilent(entities: seq<Entity>, hints: seq<LayoutHint>, tableAt: seq<nat>, includePositions: bool)
    requires Silent(entities)
    ensures Silent(Placed(entities, hints, tableAt, includePositions))
  {
    hide PlaceOf;
    forall i | 0 <= i < |entities|
      ensures TableSilent(Placed(entities, hints, tableAt, includePositions)[i])
    {
      assert TableSilent(entities[i]);
    }
  }
}
