/** The comments of a generated script, written back where they came from. */
module CommentsBack {
  import opened Options
  import opened Strings
  import opened Domain
  import opened Statements
  import opened SqlReader
  import opened ReaderLaws
  import opened ReadBack
  import opened DraftBack

  /** A comment on a column goes by `table.column`, so the column has no dot. */
  predicate ColumnCommentable(a: Attribute) {
    a.IsDocumented() ==> '.' !in Trim(a.name)
  }

  predicate Commentable(e: Entity) {
    forall k :: 0 <= k < |e.attributes| ==> ColumnCommentable(e.attributes[k])
  }

  /** How far the comments have come: the columns before the `k`-th of table
      `n`, and table `n` itself once it is `begun`. */
  ghost predicate TextSoFar(s: Schema, entities: seq<Entity>, n: nat, k: nat, begun: bool) {
    forall p: nat :: p < |entities| && p < |s.entities| ==> EntityText(s.entities[p], entities[p], p, n, k, begun)
  }

  predicate EntityText(wanted: Entity, e: Entity, p: nat, n: nat, k: nat, begun: bool) {
    && e.description == (if p < n || (p == n && begun) then Trim(wanted.description) else "")
    && forall q: nat :: q < |e.attributes| && q < |wanted.attributes| ==>
         e.attributes[q].description == if Before(p, q, n, k) then Trim(wanted.attributes[q].description) else ""
  }

  ghost predicate TextStage(s: Schema, i: Import, n: nat, k: nat, begun: bool) {
    AllNamedAs(s.entities, i.entities) && TextSoFar(s, i.entities, n, k, begun) && i.report == []
  }

  lemma UndescribedText(s: Schema, entities: seq<Entity>)
    requires Undescribed(entities)
    ensures TextSoFar(s, entities, 0, 0, false)
  {
    forall p: nat | p < |entities| && p < |s.entities|
      ensures EntityText(s.entities[p], entities[p], p, 0, 0, false)
    {
      assert EntityUndescribed(entities[p]);
    }
  }

  lemma DescribedNothing(i: Import)
    ensures DescribedUpTo(i, [], 0) == i
  {
  }

  lemma DescribedOne(i: Import, comment: Comment)
    ensures DescribedUpTo(i, [comment], 1) == Described(i, comment)
  {
    hide Described;
    assert DescribedUpTo(i, [comment], 0) == i;
  }

  lemma {:induction false} DescribedPrefix(i: Import, a: seq<Comment>, b: seq<Comment>, n: nat)
    requires n <= |a|
    ensures DescribedUpTo(i, a + b, n) == DescribedUpTo(i, a, n)
  {
    hide Described;
    if n > 0 {
      DescribedPrefix(i, a, b, n - 1);
      assert (a + b)[n - 1] == a[n - 1];
    }
  }

  lemma {:induction false} DescribedAppend(i: Import, a: seq<Comment>, b: seq<Comment>, m: nat)
    requires m <= |b|
    ensures DescribedUpTo(i, a + b, |a| + m) == DescribedUpTo(DescribedUpTo(i, a, |a|), b, m)
  {
    hide Described;
    if m == 0 {
      DescribedPrefix(i, a, b, |a|);
    } else {
      DescribedAppend(i, a, b, m - 1);
      assert (a + b)[|a| + m - 1] == b[m - 1];
    }
  }

  lemma TableDescribedIs(i: Import, comment: Comment, n: nat)
    requires FindTable(i.entities, comment.table) == Some(n) && comment.column.None?
    ensures n < |i.entities| && Described(i, comment).report == i.report
    ensures Described(i, comment).entities == i.entities[n := i.entities[n].(description := comment.text)]
  {
    hide FindTable;
  }

  lemma ColumnDescribedIs(i: Import, comment: Comment, n: nat, k: nat)
    requires FindTable(i.entities, comment.table) == Some(n) && comment.column.Some?
    requires n < |i.entities| && i.entities[n].AttributeByName(comment.column.value) == Some(k)
    ensures k < |i.entities[n].attributes| && Described(i, comment).report == i.report
    ensures var e := i.entities[n];
            Described(i, comment).entities
              == i.entities[n := e.(attributes := e.attributes[k := e.attributes[k].(description := comment.text)])]
  {
    hide FindTable, Entity.AttributeByName;
    assert i.entities[n].AttributeByName(comment.column.value).Some?;
  }

  lemma TableStage(s: Schema, i: Import, n: nat)
    requires WellNamed(s.entities) && TextStage(s, i, n, 0, false) && n < |s.entities|
    ensures var comments := TableRemark(s.entities[n]);
            TextStage(s, DescribedUpTo(i, comments, |comments|), n, 0, true)
  {
    hide WellNamed, FindTable, Described, Trim, DescribedUpTo;
    var e := s.entities[n];
    if e.IsDocumented() {
      var comment := TableCommentOf(e);
      DescribedOne(i, comment);
      FindsTable(s.entities, i.entities, n);
      TableDescribedIs(i, comment, n);
      DescribedNamed(s, i, comment);
      TableTextStep(s, i.entities, n, Described(i, comment).entities);
    } else {
      DescribedNothing(i);
      TableTextSkip(s, i.entities, n);
    }
  }

  lemma DescribedNamed(s: Schema, i: Import, comment: Comment)
    requires AllNamedAs(s.entities, i.entities)
    ensures AllNamedAs(s.entities, Described(i, comment).entities)
  {
    hide Described, AllNamedAs, SameShape;
    DescribedIs(i, comment);
    ReferencesAreShape(i.entities, Described(i, comment).entities);
    NamedAsSame(s.entities, i.entities, Described(i, comment).entities);
  }

  lemma TableTextStep(s: Schema, entities: seq<Entity>, n: nat, after: seq<Entity>)
    requires TextSoFar(s, entities, n, 0, false) && n < |s.entities| && n < |entities|
    requires after == entities[n := entities[n].(description := Trim(s.entities[n].description))]
    ensures TextSoFar(s, after, n, 0, true)
  {
    hide Trim;
    forall p: nat | p < |after| && p < |s.entities|
      ensures EntityText(s.entities[p], after[p], p, n, 0, true)
    {
      assert EntityText(s.entities[p], entities[p], p, n, 0, false);
    }
  }

  lemma TableTextSkip(s: Schema, entities: seq<Entity>, n: nat)
    requires TextSoFar(s, entities, n, 0, false) && n < |s.entities| && !s.entities[n].IsDocumented()
    ensures TextSoFar(s, entities, n, 0, true)
  {
    hide Trim;
    forall p: nat | p < |entities| && p < |s.entities|
      ensures EntityText(s.entities[p], entities[p], p, n, 0, true)
    {
      assert EntityText(s.entities[p], entities[p], p, n, 0, false);
    }
  }

  lemma ColumnStage(s: Schema, i: Import, n: nat, k: nat)
    requires WellNamed(s.entities) && TextStage(s, i, n, k, true) && n < |s.entities| && k < |s.entities[n].attributes|
    requires ColumnCommentable(s.entities[n].attributes[k])
    ensures var comments := ColumnRemark(s.entities[n], s.entities[n].attributes[k]);
            TextStage(s, DescribedUpTo(i, comments, |comments|), n, k + 1, true)
  {
    hide ColumnsWellNamed, DistinctTables, FindTable, Described, Trim, DescribedUpTo, TextSoFar, NamedAs, Entity.AttributeByName;
    var e, a := s.entities[n], s.entities[n].attributes[k];
    if a.IsDocumented() {
      var comment := ColumnCommentOf(e, a);
      DescribedOne(i, comment);
      FindsTable(s.entities, i.entities, n);
      assert ColumnsWellNamed(e) && NamedAs(e, i.entities[n]);
      FindsColumn(e, i.entities[n], k);
      ColumnDescribedIs(i, comment, n, k);
      DescribedNamed(s, i, comment);
      ColumnTextStep(s, i.entities, n, k, Described(i, comment).entities);
    } else {
      DescribedNothing(i);
      ColumnTextSkip(s, i.entities, n, k);
    }
  }

  lemma ColumnTextStep(s: Schema, entities: seq<Entity>, n: nat, k: nat, after: seq<Entity>)
    requires TextSoFar(s, entities, n, k, true)
    requires n < |s.entities| && n < |entities| && k < |entities[n].attributes| && k < |s.entities[n].attributes|
    requires var e := entities[n];
             var a := e.attributes[k].(description := Trim(s.entities[n].attributes[k].description));
             after == entities[n := e.(attributes := e.attributes[k := a])]
    ensures TextSoFar(s, after, n, k + 1, true)
  {
    hide Trim;
    forall p: nat | p < |after| && p < |s.entities|
      ensures EntityText(s.entities[p], after[p], p, n, k + 1, true)
    {
      assert EntityText(s.entities[p], entities[p], p, n, k, true);
      forall q: nat | q < |after[p].attributes| && q < |s.entities[p].attributes|
        ensures after[p].attributes[q].description
          == if Before(p, q, n, k + 1) then Trim(s.entities[p].attributes[q].description) else ""
      {
        assert p != n ==> after[p] == entities[p];
        assert p == n && q != k ==> after[p].attributes[q] == entities[p].attributes[q];
      }
    }
  }

  lemma ColumnTextSkip(s: Schema, entities: seq<Entity>, n: nat, k: nat)
    requires TextSoFar(s, entities, n, k, true)
    requires n < |s.entities| && k < |s.entities[n].attributes| && !s.entities[n].attributes[k].IsDocumented()
    ensures TextSoFar(s, entities, n, k + 1, true)
  {
    hide Trim;
    forall p: nat | p < |entities| && p < |s.entities|
      ensures EntityText(s.entities[p], entities[p], p, n, k + 1, true)
    {
      assert EntityText(s.entities[p], entities[p], p, n, k, true);
    }
  }

  lemma {:induction false} TableRemarked(s: Schema, i: Import, n: nat, k: nat)
    requires WellNamed(s.entities) && TextStage(s, i, n, 0, false) && n < |s.entities| && k <= |s.entities[n].attributes|
    requires Commentable(s.entities[n])
    ensures var comments := Remarks(s.entities[n], k);
            TextStage(s, DescribedUpTo(i, comments, |comments|), n, k, true)
  {
    hide WellNamed, TextStage, DescribedUpTo, TableRemark, ColumnRemark, ColumnCommentable;
    var e := s.entities[n];
    if k == 0 {
      TableStage(s, i, n);
    } else {
      TableRemarked(s, i, n, k - 1);
      var before, more := Remarks(e, k - 1), ColumnRemark(e, e.attributes[k - 1]);
      ColumnStage(s, DescribedUpTo(i, before, |before|), n, k - 1);
      DescribedAppend(i, before, more, |more|);
    }
  }

  lemma NextText(s: Schema, i: Import, n: nat)
    requires n < |s.entities| && TextStage(s, i, n, |s.entities[n].attributes|, true)
    ensures TextStage(s, i, n + 1, 0, false)
  {
    hide AllNamedAs, Trim;
    forall p: nat | p < |i.entities| && p < |s.entities|
      ensures EntityText(s.entities[p], i.entities[p], p, n + 1, 0, false)
    {
      assert EntityText(s.entities[p], i.entities[p], p, n, |s.entities[n].attributes|, true);
    }
  }

  lemma {:induction false} AllRemarked(s: Schema, i: Import, n: nat)
    requires WellNamed(s.entities) && TextStage(s, i, 0, 0, false) && n <= |s.entities|
    requires forall p :: 0 <= p < |s.entities| ==> Commentable(s.entities[p])
    ensures var comments := RemarksUpTo(s, n);
            TextStage(s, DescribedUpTo(i, comments, |comments|), n, 0, false)
  {
    hide WellNamed, TextStage, DescribedUpTo, Remarks, Commentable;
    if n == 0 {
      DescribedNothing(i);
    } else {
      AllRemarked(s, i, n - 1);
      var e := s.entities[n - 1];
      var before, more := RemarksUpTo(s, n - 1), Remarks(e, |e.attributes|);
      var middle := DescribedUpTo(i, before, |before|);
      TableRemarked(s, middle, n - 1, |e.attributes|);
      DescribedAppend(i, before, more, |more|);
      NextText(s, DescribedUpTo(middle, more, |more|), n - 1);
    }
  }
}
