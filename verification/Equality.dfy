/** When two schemas compare equal: a description without counters, and the
    laws it obeys. */
module Equality {
  import opened Options
  import opened Strings
  import opened Domain
  import opened Comparisons
  import opened Matching
  import opened Differ
  import opened Sums
  import opened Tallies
  import opened Mirroring

  ghost predicate AttributesAgree(e: Attribute, a: Attribute) {
    SameFields(e, a) && SameKeys(e, a) && Trim(e.description) == Trim(a.description)
  }

  /** Nothing on either side is left without a partner. */
  ghost predicate Perfect(left: seq<string>, right: seq<string>) {
    && (forall i: nat :: i < |left| ==> Partner(left, right, i).Some?)
    && (forall j: nat :: j < |right| ==> HasPartner(left, right, j))
  }

  ghost predicate ColumnsAgree(e: seq<Attribute>, a: seq<Attribute>) {
    && Perfect(ColumnNames(e), ColumnNames(a))
    && forall i: nat, j: nat :: Paired(ColumnNames(e), ColumnNames(a), i, j) ==> AttributesAgree(e[i], a[j])
  }

  ghost predicate EntitiesAgree(e: Entity, a: Entity, includePositions: bool) {
    && Trim(e.description) == Trim(a.description)
    && (includePositions ==> e.position == a.position)
    && ColumnsAgree(e.attributes, a.attributes)
  }

  ghost predicate TablesAgree(e: seq<Entity>, a: seq<Entity>, includePositions: bool) {
    && Perfect(TableNames(e), TableNames(a))
    && forall i: nat, j: nat :: Paired(TableNames(e), TableNames(a), i, j) ==> EntitiesAgree(e[i], a[j], includePositions)
  }

  /** The first key with the same holder has the same target. */
  ghost predicate KeyAgrees(left: seq<(string, string)>, right: seq<(string, string)>, i: nat)
    requires i < |left|
  {
    Holder(right, left[i].0).Some? && Same(right[Holder(right, left[i].0).value].1, left[i].1)
  }

  ghost predicate KeysAgree(left: seq<(string, string)>, right: seq<(string, string)>) {
    && (forall i: nat :: i < |left| ==> KeyAgrees(left, right, i))
    && (forall j: nat :: j < |right| ==> Holder(left, right[j].0).Some?)
  }

  ghost predicate LinkAgrees(e: Relationship, a: Relationship) {
    e.cardinality == a.cardinality && Trim(e.description) == Trim(a.description)
  }

  ghost predicate LinksAgree(e: Schema, a: Schema) {
    && Perfect(Links(e), Links(a))
    && forall i: nat, j: nat :: Paired(Links(e), Links(a), i, j) ==> LinkAgrees(e.relationships[i], a.relationships[j])
  }

  ghost predicate SchemasAgree(e: Schema, a: Schema, includePositions: bool) {
    && TablesAgree(e.entities, a.entities, includePositions)
    && KeysAgree(References(e), References(a))
    && LinksAgree(e, a)
  }

  // ----- clean counts and agreement are the same thing -----

  ghost predicate CellsClean(left: seq<string>, right: seq<string>, cell: (nat, nat) -> Counts) {
    forall i: nat, j: nat :: Paired(left, right, i, j) ==> cell(i, j).IsClean()
  }

  lemma MatchCleanIff(left: seq<string>, right: seq<string>, cell: (nat, nat) -> Counts, lone: bool)
    ensures MatchTotal(left, right, cell, lone).IsClean()
      <==> CellsClean(left, right, cell) && (lone ==> Perfect(left, right))
  {
    hide Counts.Plus, HasPartner, CountSum;
    var lefts, rights := LeftCounts(left, right, cell, lone), RightCounts(left, right, lone);
    CountSumClean(|left|, lefts);
    CountSumClean(|right|, rights);
    PlusClean(CountSum(|left|, lefts), CountSum(|right|, rights));
    forall i: nat | i < |left|
      ensures lefts(i).IsClean() <==>
        (forall j: nat :: Paired(left, right, i, j) ==> cell(i, j).IsClean()) && (lone ==> Partner(left, right, i).Some?)
    {
      LeftCountClean(left, right, cell, lone, i);
    }
    forall j: nat | j < |right|
      ensures rights(j).IsClean() <==> (lone ==> HasPartner(left, right, j))
    {
    }
    if MatchTotal(left, right, cell, lone).IsClean() {
      forall i: nat, j: nat | Paired(left, right, i, j)
        ensures cell(i, j).IsClean()
      {
        assert lefts(i).IsClean();
      }
      forall i: nat | i < |left|
        ensures lone ==> Partner(left, right, i).Some?
      {
        assert lefts(i).IsClean();
      }
      forall j: nat | j < |right|
        ensures lone ==> HasPartner(left, right, j)
      {
        assert rights(j).IsClean();
      }
    }
  }

  lemma LeftCountClean(left: seq<string>, right: seq<string>, cell: (nat, nat) -> Counts, lone: bool, i: nat)
    ensures LeftCount(left, right, cell, lone, i).IsClean() <==>
      (forall j: nat :: Paired(left, right, i, j) ==> cell(i, j).IsClean()) && (lone ==> Partner(left, right, i).Some?)
  {
    hide Paired;
    forall j: nat | Paired(left, right, i, j)
      ensures Partner(left, right, i) == Some(j)
    {
      PartnerIs(left, right, i, j);
    }
  }

  ghost predicate AttributeClean(e: Attribute, a: Attribute) {
    forall of: Category :: AttributeCounts(e, a, of).IsClean()
  }

  lemma AttributeCleanIff(e: Attribute, a: Attribute)
    ensures AttributeClean(e, a) <==> AttributesAgree(e, a)
  {
    hide Trim;
    if AttributeClean(e, a) {
      assert AttributeCounts(e, a, Columns).IsClean();
      assert AttributeCounts(e, a, Keys).IsClean();
      assert AttributeCounts(e, a, Descriptions).IsClean();
    }
  }

  lemma ColumnsCleanIff(e: seq<Attribute>, a: seq<Attribute>)
    ensures (forall of: Category :: ColumnsCounts(e, a, of).IsClean()) <==> ColumnsAgree(e, a)
  {
    hide MatchTotal, AttributeCounts, AttributesAgree, Perfect, Paired, Counts.IsClean;
    var names, others := ColumnNames(e), ColumnNames(a);
    forall of: Category
      ensures ColumnsCounts(e, a, of).IsClean()
        <==> CellsClean(names, others, AttributeCells(e, a, of)) && (of == Columns ==> Perfect(names, others))
    {
      MatchCleanIff(names, others, AttributeCells(e, a, of), of == Columns);
    }
    AttributeCellsClean(e, a);
    assert Columns == Columns;
    if forall of: Category :: ColumnsCounts(e, a, of).IsClean() {
      assert ColumnsCounts(e, a, Columns).IsClean();
    }
  }

  lemma AttributeCellsClean(e: seq<Attribute>, a: seq<Attribute>)
    ensures (forall of: Category :: CellsClean(ColumnNames(e), ColumnNames(a), AttributeCells(e, a, of)))
      <==> forall i: nat, j: nat :: Paired(ColumnNames(e), ColumnNames(a), i, j) ==> AttributesAgree(e[i], a[j])
  {
    hide AttributeCounts, AttributesAgree, Counts.IsClean;
    var names, others := ColumnNames(e), ColumnNames(a);
    if forall of: Category :: CellsClean(names, others, AttributeCells(e, a, of)) {
      forall i: nat, j: nat | Paired(names, others, i, j)
        ensures AttributesAgree(e[i], a[j])
      {
        forall of: Category
          ensures AttributeCounts(e[i], a[j], of).IsClean()
        {
          assert CellsClean(names, others, AttributeCells(e, a, of));
          assert AttributeCells(e, a, of)(i, j).IsClean();
        }
        AttributeCleanIff(e[i], a[j]);
      }
    }
    if forall i: nat, j: nat :: Paired(names, others, i, j) ==> AttributesAgree(e[i], a[j]) {
      forall of: Category, i: nat, j: nat | Paired(names, others, i, j)
        ensures AttributeCells(e, a, of)(i, j).IsClean()
      {
        AttributeCleanIff(e[i], a[j]);
        assert AttributeCounts(e[i], a[j], of).IsClean();
      }
    }
  }

  ghost predicate EntityClean(e: Entity, a: Entity, includePositions: bool) {
    forall of: Category :: EntityCounts(e, a, includePositions, of).IsClean()
  }

  lemma HeadCleanIff(e: Entity, a: Entity, includePositions: bool)
    ensures (forall of: Category :: HeadCounts(e, a, includePositions, of).IsClean())
      <==> Trim(e.description) == Trim(a.description) && (includePositions ==> e.position == a.position)
  {
    hide Trim;
    if forall of: Category :: HeadCounts(e, a, includePositions, of).IsClean() {
      assert HeadCounts(e, a, includePositions, Descriptions).IsClean();
      assert HeadCounts(e, a, includePositions, Positions).IsClean();
    }
  }

  lemma EntityCleanIff(e: Entity, a: Entity, includePositions: bool)
    ensures EntityClean(e, a, includePositions) <==> EntitiesAgree(e, a, includePositions)
  {
    hide ColumnsCounts, HeadCounts, ColumnsAgree, Counts.Plus, Counts.IsClean, Trim;
    forall of: Category
      ensures EntityCounts(e, a, includePositions, of).IsClean()
        <==> HeadCounts(e, a, includePositions, of).IsClean() && ColumnsCounts(e.attributes, a.attributes, of).IsClean()
    {
      PlusClean(HeadCounts(e, a, includePositions, of), ColumnsCounts(e.attributes, a.attributes, of));
    }
    HeadCleanIff(e, a, includePositions);
    ColumnsCleanIff(e.attributes, a.attributes);
  }

  lemma EntityCellsClean(e: seq<Entity>, a: seq<Entity>, includePositions: bool)
    ensures (forall of: Category :: ContentCounts(e, a, includePositions, of).IsClean())
      <==> forall i: nat, j: nat :: Paired(TableNames(e), TableNames(a), i, j) ==> EntitiesAgree(e[i], a[j], includePositions)
  {
    hide MatchTotal, EntityCounts, EntitiesAgree, Counts.IsClean;
    var names, others := TableNames(e), TableNames(a);
    forall of: Category
      ensures ContentCounts(e, a, includePositions, of).IsClean()
        <==> CellsClean(names, others, EntityCells(e, a, includePositions, of))
    {
      MatchCleanIff(names, others, EntityCells(e, a, includePositions, of), false);
    }
    if forall of: Category :: ContentCounts(e, a, includePositions, of).IsClean() {
      forall i: nat, j: nat | Paired(names, others, i, j)
        ensures EntitiesAgree(e[i], a[j], includePositions)
      {
        forall of: Category
          ensures EntityCounts(e[i], a[j], includePositions, of).IsClean()
        {
          assert ContentCounts(e, a, includePositions, of).IsClean();
          assert EntityCells(e, a, includePositions, of)(i, j).IsClean();
        }
        EntityCleanIff(e[i], a[j], includePositions);
      }
    }
    if forall i: nat, j: nat :: Paired(names, others, i, j) ==> EntitiesAgree(e[i], a[j], includePositions) {
      forall of: Category, i: nat, j: nat | Paired(names, others, i, j)
        ensures EntityCells(e, a, includePositions, of)(i, j).IsClean()
      {
        EntityCleanIff(e[i], a[j], includePositions);
        assert EntityCounts(e[i], a[j], includePositions, of).IsClean();
      }
    }
  }

  lemma TablesCleanIff(e: seq<Entity>, a: seq<Entity>)
    ensures (forall of: Category :: TablesCounts(e, a, of).IsClean()) <==> Perfect(TableNames(e), TableNames(a))
  {
    hide MatchTotal, Perfect, Paired;
    forall of: Category
      ensures TablesCounts(e, a, of).IsClean() <==> (of == Tables ==> Perfect(TableNames(e), TableNames(a)))
    {
      MatchCleanIff(TableNames(e), TableNames(a), TableCells(of), of == Tables);
    }
    if forall of: Category :: TablesCounts(e, a, of).IsClean() {
      assert TablesCounts(e, a, Tables).IsClean();
    }
  }

  lemma KeysCleanIff(left: seq<(string, string)>, right: seq<(string, string)>)
    ensures (forall of: Category :: ForeignKeyCounts(left, right, of).IsClean()) <==> KeysAgree(left, right)
  {
    hide Counts.Plus, Holder, Same, CountSum;
    var rows, extras := KeyRowCounts(left, right, ForeignKeys), ExtraKeyCounts(left, right, ForeignKeys);
    CountSumClean(|left|, rows);
    CountSumClean(|right|, extras);
    PlusClean(CountSum(|left|, rows), CountSum(|right|, extras));
    assert forall i: nat :: i < |left| ==> (rows(i).IsClean() <==> KeyAgrees(left, right, i));
    assert forall j: nat :: j < |right| ==> (extras(j).IsClean() <==> Holder(left, right[j].0).Some?);
    forall of: Category | of != ForeignKeys
      ensures ForeignKeyCounts(left, right, of).IsClean()
    {
      NoForeignKeyCounts(left, right, of);
    }
    if forall of: Category :: ForeignKeyCounts(left, right, of).IsClean() {
      assert ForeignKeyCounts(left, right, ForeignKeys).IsClean();
    }
  }

  lemma LinkCleanIff(e: Relationship, a: Relationship)
    ensures (forall of: Category :: LinkCounts(e, a, of).IsClean()) <==> LinkAgrees(e, a)
  {
    hide Trim;
    if forall of: Category :: LinkCounts(e, a, of).IsClean() {
      assert LinkCounts(e, a, Relationships).IsClean();
      assert LinkCounts(e, a, Descriptions).IsClean();
    }
  }

  lemma LinkCellAgrees(names: seq<string>, others: seq<string>, es: seq<Relationship>, as_: seq<Relationship>, i: nat, j: nat)
    requires |names| == |es| && |others| == |as_| && Paired(names, others, i, j)
    requires forall of: Category :: CellsClean(names, others, LinkCells(es, as_, of))
    ensures LinkAgrees(es[i], as_[j])
  {
    hide LinkCounts, LinkAgrees, Counts.IsClean, Paired;
    assert i < |es| && j < |as_| by {
      PairedInRange(names, others, i, j);
    }
    forall of: Category
      ensures LinkCounts(es[i], as_[j], of).IsClean()
    {
      assert CellsClean(names, others, LinkCells(es, as_, of));
      assert LinkCells(es, as_, of)(i, j).IsClean();
    }
    LinkCleanIff(es[i], as_[j]);
  }

  lemma PairedInRange(left: seq<string>, right: seq<string>, i: nat, j: nat)
    requires Paired(left, right, i, j)
    ensures i < |left| && j < |right|
  {
  }

  lemma LinkCellsClean(e: Schema, a: Schema)
    ensures (forall of: Category :: CellsClean(Links(e), Links(a), LinkCells(e.relationships, a.relationships, of)))
      <==> forall i: nat, j: nat :: Paired(Links(e), Links(a), i, j) ==> LinkAgrees(e.relationships[i], a.relationships[j])
  {
    hide LinkCounts, LinkAgrees, Counts.IsClean;
    var names, others := Links(e), Links(a);
    var es, as_ := e.relationships, a.relationships;
    if forall of: Category :: CellsClean(names, others, LinkCells(es, as_, of)) {
      forall i: nat, j: nat | Paired(names, others, i, j)
        ensures LinkAgrees(es[i], as_[j])
      {
        LinkCellAgrees(names, others, es, as_, i, j);
      }
    } else {
      var of: Category :| !CellsClean(names, others, LinkCells(es, as_, of));
      var i: nat, j: nat :| Paired(names, others, i, j) && !LinkCells(es, as_, of)(i, j).IsClean();
      LinkCleanIff(es[i], as_[j]);
      assert !LinkCounts(es[i], as_[j], of).IsClean();
    }
  }

  lemma LinksCleanIff(e: Schema, a: Schema)
    ensures (forall of: Category :: LinksCounts(e, a, of).IsClean()) <==> LinksAgree(e, a)
  {
    hide MatchTotal, LinkAgrees, Perfect, Paired, Counts.IsClean, Links;
    var names, others := Links(e), Links(a);
    forall of: Category
      ensures LinksCounts(e, a, of).IsClean()
        <==> CellsClean(names, others, LinkCells(e.relationships, a.relationships, of)) && (of == Relationships ==> Perfect(names, others))
    {
      MatchCleanIff(names, others, LinkCells(e.relationships, a.relationships, of), of == Relationships);
    }
    LinkCellsClean(e, a);
    if forall of: Category :: LinksCounts(e, a, of).IsClean() {
      assert LinksCounts(e, a, Relationships).IsClean();
    }
  }

  /** All counters clean: the two schemas agree, and the other way round. */
  lemma EqualIffAgree(e: Schema, a: Schema, includePositions: bool, c: Comparison)
    requires IsTotal(c, Compared(e, a, includePositions))
    ensures c.IsEqual() <==> SchemasAgree(e, a, includePositions)
  {
    hide Compared, TablesCounts, ContentCounts, ForeignKeyCounts, LinksCounts, Counts.Plus, Counts.IsClean;
    hide References, Perfect, Paired, EntitiesAgree, KeysAgree, LinksAgree;
    forall of: Category
      ensures c.Of(of).IsClean() <==>
        && TablesCounts(e.entities, a.entities, of).IsClean()
        && ContentCounts(e.entities, a.entities, includePositions, of).IsClean()
        && ForeignKeyCounts(References(e), References(a), of).IsClean()
        && LinksCounts(e, a, of).IsClean()
    {
      ComparedCounts(e, a, includePositions, of);
      var tables, content := TablesCounts(e.entities, a.entities, of), ContentCounts(e.entities, a.entities, includePositions, of);
      var keys, links := ForeignKeyCounts(References(e), References(a), of), LinksCounts(e, a, of);
      PlusClean(tables, content);
      PlusClean(tables.Plus(content), keys);
      PlusClean(tables.Plus(content).Plus(keys), links);
    }
    TablesCleanIff(e.entities, a.entities);
    EntityCellsClean(e.entities, a.entities, includePositions);
    KeysCleanIff(References(e), References(a));
    LinksCleanIff(e, a);
  }
}
