/** Comparing the other way round, and what the counts add up to. */
module Mirroring {
  import opened Options
  import opened Strings
  import opened Domain
  import opened Comparisons
  import opened Matching
  import opened Differ
  import opened Sums
  import opened Tallies

  /** No two foreign keys are held by columns spelled the same up to case. */
  ghost predicate UniqueHolders(references: seq<(string, string)>) {
    forall i, j :: 0 <= i < j < |references| ==> !Same(references[i].0, references[j].0)
  }

  lemma AttributeCountsMirror(e: Attribute, a: Attribute, of: Category)
    ensures AttributeCounts(a, e, of) == AttributeCounts(e, a, of).Mirror()
  {
    hide Trim;
  }

  lemma ColumnsCountsMirror(e: seq<Attribute>, a: seq<Attribute>, of: Category)
    ensures ColumnsCounts(a, e, of) == ColumnsCounts(e, a, of).Mirror()
  {
    hide MatchTotal, AttributeCounts;
    forall i: nat, j: nat
      ensures AttributeCells(a, e, of)(j, i) == AttributeCells(e, a, of)(i, j).Mirror()
    {
      if i < |e| && j < |a| {
        AttributeCountsMirror(e[i], a[j], of);
      }
    }
    MatchTotalMirror(ColumnNames(e), ColumnNames(a), AttributeCells(e, a, of), AttributeCells(a, e, of), of == Columns);
  }

  lemma EntityCountsMirror(e: Entity, a: Entity, includePositions: bool, of: Category)
    ensures EntityCounts(a, e, includePositions, of) == EntityCounts(e, a, includePositions, of).Mirror()
  {
    hide ColumnsCounts, Trim;
    ColumnsCountsMirror(e.attributes, a.attributes, of);
    PlusMirror(HeadCounts(e, a, includePositions, of), ColumnsCounts(e.attributes, a.attributes, of));
  }

  lemma ContentCountsMirror(e: seq<Entity>, a: seq<Entity>, includePositions: bool, of: Category)
    ensures ContentCounts(a, e, includePositions, of) == ContentCounts(e, a, includePositions, of).Mirror()
  {
    hide MatchTotal, EntityCounts;
    var cells, back := EntityCells(e, a, includePositions, of), EntityCells(a, e, includePositions, of);
    forall i: nat, j: nat
      ensures back(j, i) == cells(i, j).Mirror()
    {
      if i < |e| && j < |a| {
        EntityCountsMirror(e[i], a[j], includePositions, of);
      }
    }
    MatchTotalMirror(TableNames(e), TableNames(a), cells, back, false);
  }

  lemma LinkCountsMirror(e: Relationship, a: Relationship, of: Category)
    ensures LinkCounts(a, e, of) == LinkCounts(e, a, of).Mirror()
  {
    hide Trim;
  }

  lemma LinksCountsMirror(e: Schema, a: Schema, of: Category)
    ensures LinksCounts(a, e, of) == LinksCounts(e, a, of).Mirror()
  {
    hide MatchTotal, Links, LinkCounts;
    var cells, back := LinkCells(e.relationships, a.relationships, of), LinkCells(a.relationships, e.relationships, of);
    forall i: nat, j: nat
      ensures back(j, i) == cells(i, j).Mirror()
    {
      if i < |e.relationships| && j < |a.relationships| {
        LinkCountsMirror(e.relationships[i], a.relationships[j], of);
      }
    }
    MatchTotalMirror(Links(e), Links(a), cells, back, of == Relationships);
  }

  // ----- foreign keys, when each holder is spelled once -----

  function Holders(references: seq<(string, string)>): (r: seq<string>)
    ensures |r| == |references| && forall i :: 0 <= i < |r| ==> r[i] == references[i].0
  {
    seq(|references|, i requires 0 <= i < |references| => references[i].0)
  }

  ghost function KeyCells(left: seq<(string, string)>, right: seq<(string, string)>): (nat, nat) -> Counts {
    (i: nat, j: nat) =>
      if i < |left| && j < |right| then if Same(right[j].1, left[i].1) then ONE_MATCHED else ONE_CHANGED else NO_COUNTS
  }

  lemma {:induction false} UniqueRank(references: seq<(string, string)>, i: nat, k: nat)
    requires UniqueHolders(references) && k <= i < |references|
    ensures CountSame(Holders(references), k, references[i].0) == 0
  {
    if k > 0 {
      UniqueRank(references, i, k - 1);
      assert !Same(references[k - 1].0, references[i].0);
    }
  }

  /** Then finding a holder is the greedy pairing of holders. */
  lemma HolderIsPartner(left: seq<(string, string)>, right: seq<(string, string)>, i: nat)
    requires UniqueHolders(left) && UniqueHolders(right) && i < |left|
    ensures Holder(right, left[i].0) == Partner(Holders(left), Holders(right), i)
  {
    hide UniqueHolders, CountSame;
    var found := Holder(right, left[i].0);
    UniqueRank(left, i, i);
    match found {
      case Some(j) =>
        UniqueRank(right, j, j);
        assert Paired(Holders(left), Holders(right), i, j);
        PartnerIs(Holders(left), Holders(right), i, j);
      case None =>
    }
  }

  lemma HolderBackIsHasPartner(left: seq<(string, string)>, right: seq<(string, string)>, j: nat)
    requires UniqueHolders(left) && UniqueHolders(right) && j < |right|
    ensures Holder(left, right[j].0).Some? <==> HasPartner(Holders(left), Holders(right), j)
  {
    hide UniqueHolders, HasPartner, Partner, Holder;
    HolderIsPartner(right, left, j);
    HasPartnerMirror(Holders(left), Holders(right), j);
  }

  lemma ForeignKeyCountsAsMatch(left: seq<(string, string)>, right: seq<(string, string)>)
    requires UniqueHolders(left) && UniqueHolders(right)
    ensures ForeignKeyCounts(left, right, ForeignKeys)
         == MatchTotal(Holders(left), Holders(right), KeyCells(left, right), true)
  {
    hide UniqueHolders, Holder, Partner, HasPartner, CountSum, Counts.Plus, Same;
    forall i: nat | i < |left|
      ensures KeyRowCounts(left, right, ForeignKeys)(i)
           == LeftCounts(Holders(left), Holders(right), KeyCells(left, right), true)(i)
    {
      HolderIsPartner(left, right, i);
    }
    forall j: nat | j < |right|
      ensures ExtraKeyCounts(left, right, ForeignKeys)(j) == RightCounts(Holders(left), Holders(right), true)(j)
    {
      HolderBackIsHasPartner(left, right, j);
    }
    CountSumCongruent(|left|, KeyRowCounts(left, right, ForeignKeys), LeftCounts(Holders(left), Holders(right), KeyCells(left, right), true));
    CountSumCongruent(|right|, ExtraKeyCounts(left, right, ForeignKeys), RightCounts(Holders(left), Holders(right), true));
  }

  lemma NoForeignKeyCounts(left: seq<(string, string)>, right: seq<(string, string)>, of: Category)
    requires of != ForeignKeys
    ensures ForeignKeyCounts(left, right, of) == NO_COUNTS
  {
    CountSumZero(|left|, KeyRowCounts(left, right, of));
    CountSumZero(|right|, ExtraKeyCounts(left, right, of));
  }

  lemma ForeignKeyCountsMirror(left: seq<(string, string)>, right: seq<(string, string)>, of: Category)
    requires of == ForeignKeys ==> UniqueHolders(left) && UniqueHolders(right)
    ensures ForeignKeyCounts(right, left, of) == ForeignKeyCounts(left, right, of).Mirror()
  {
    hide UniqueHolders, ForeignKeyCounts, MatchTotal;
    if of == ForeignKeys {
      ForeignKeyCountsAsMatch(left, right);
      ForeignKeyCountsAsMatch(right, left);
      MatchTotalMirror(Holders(left), Holders(right), KeyCells(left, right), KeyCells(right, left), true);
    } else {
      NoForeignKeyCounts(left, right, of);
      NoForeignKeyCounts(right, left, of);
    }
  }

  // ----- the laws -----

  lemma SchemaCountsMirror(e: Schema, a: Schema, includePositions: bool, of: Category)
    requires of == ForeignKeys ==> UniqueHolders(References(e)) && UniqueHolders(References(a))
    ensures SchemaCounts(a, e, includePositions, of) == SchemaCounts(e, a, includePositions, of).Mirror()
  {
    hide UniqueHolders, References, TablesCounts, ContentCounts, ForeignKeyCounts, LinksCounts, Counts.Plus;
    var tables, content := TablesCounts(e.entities, a.entities, of), ContentCounts(e.entities, a.entities, includePositions, of);
    var keys, links := ForeignKeyCounts(References(e), References(a), of), LinksCounts(e, a, of);
    TablesCountsMirror(e.entities, a.entities, of);
    ContentCountsMirror(e.entities, a.entities, includePositions, of);
    ForeignKeyCountsMirror(References(e), References(a), of);
    LinksCountsMirror(e, a, of);
    PlusMirror(tables, content);
    PlusMirror(tables.Plus(content), keys);
    PlusMirror(tables.Plus(content).Plus(keys), links);
  }

  lemma TablesCountsMirror(e: seq<Entity>, a: seq<Entity>, of: Category)
    ensures TablesCounts(a, e, of) == TablesCounts(e, a, of).Mirror()
  {
    hide MatchTotal;
    MatchTotalMirror(TableNames(e), TableNames(a), TableCells(of), TableCells(of), of == Tables);
  }

  /** Swapping the two schemas keeps what matched and what changed, and swaps
      missing with extra, in every category; precision becomes recall. Only the
      foreign keys need holders that are spelled once. */
  lemma ComparisonMirrors(e: Schema, a: Schema, includePositions: bool, c: Comparison, back: Comparison, of: Category)
    requires of == ForeignKeys ==> UniqueHolders(References(e)) && UniqueHolders(References(a))
    requires IsTotal(c, Compared(e, a, includePositions)) && IsTotal(back, Compared(a, e, includePositions))
    ensures back.Of(of) == c.Of(of).Mirror()
    ensures back.Of(of).Precision() == c.Of(of).Recall() && back.Of(of).Recall() == c.Of(of).Precision()
  {
    hide UniqueHolders, References, Compared, SchemaCounts;
    ComparedCounts(e, a, includePositions, of);
    ComparedCounts(a, e, includePositions, of);
    SchemaCountsMirror(e, a, includePositions, of);
  }

  // ----- conservation -----

  function ExpectedSide(c: Counts): nat {
    c.matched + c.missing + c.changed
  }

  function ActualSide(c: Counts): nat {
    c.matched + c.extra + c.changed
  }

  ghost function NatSum(n: nat, f: nat -> nat): nat {
    if n == 0 then 0 else NatSum(n - 1, f) + f(n - 1)
  }

  lemma {:induction false} ExpectedSideSum(n: nat, f: nat -> Counts, g: nat -> nat)
    requires forall k: nat :: k < n ==> ExpectedSide(f(k)) == g(k)
    ensures ExpectedSide(CountSum(n, f)) == NatSum(n, g)
  {
    if n > 0 {
      ExpectedSideSum(n - 1, f, g);
    }
  }

  ghost function OneEach(): nat -> nat {
    (k: nat) => 1
  }

  lemma {:induction false} OneEachSum(n: nat)
    ensures NatSum(n, OneEach()) == n
  {
    if n > 0 {
      OneEachSum(n - 1);
    }
  }

  lemma {:induction false} RightCountsHaveNoExpected(left: seq<string>, right: seq<string>, lone: bool, m: nat)
    ensures ExpectedSide(CountSum(m, RightCounts(left, right, lone))) == 0
  {
    if m > 0 {
      RightCountsHaveNoExpected(left, right, lone, m - 1);
    }
  }

  /** In a matching every left item is counted once, matched or missing or changed. */
  lemma MatchTotalExpected(left: seq<string>, right: seq<string>, cell: (nat, nat) -> Counts)
    requires forall i: nat, j: nat :: Paired(left, right, i, j) ==> ExpectedSide(cell(i, j)) == 1
    ensures ExpectedSide(MatchTotal(left, right, cell, true)) == |left|
  {
    hide CountSum;
    RightCountsHaveNoExpected(left, right, true, |right|);
    forall i: nat | i < |left|
      ensures ExpectedSide(LeftCounts(left, right, cell, true)(i)) == OneEach()(i)
    {
    }
    ExpectedSideSum(|left|, LeftCounts(left, right, cell, true), OneEach());
    OneEachSum(|left|);
  }

  lemma TablesExpected(e: seq<Entity>, a: seq<Entity>)
    ensures ExpectedSide(TablesCounts(e, a, Tables)) == |e|
  {
    hide MatchTotal;
    MatchTotalExpected(TableNames(e), TableNames(a), TableCells(Tables));
  }

  lemma ColumnsExpected(e: seq<Attribute>, a: seq<Attribute>)
    ensures ExpectedSide(ColumnsCounts(e, a, Columns)) == |e|
  {
    hide MatchTotal;
    MatchTotalExpected(ColumnNames(e), ColumnNames(a), AttributeCells(e, a, Columns));
  }

  lemma LinksExpected(e: Schema, a: Schema)
    ensures ExpectedSide(LinksCounts(e, a, Relationships)) == |e.relationships|
  {
    hide MatchTotal;
    MatchTotalExpected(Links(e), Links(a), LinkCells(e.relationships, a.relationships, Relationships));
  }

  lemma {:induction false} ExtraKeysHaveNoExpected(left: seq<(string, string)>, right: seq<(string, string)>, m: nat)
    ensures ExpectedSide(CountSum(m, ExtraKeyCounts(left, right, ForeignKeys))) == 0
  {
    if m > 0 {
      ExtraKeysHaveNoExpected(left, right, m - 1);
    }
  }

  lemma ForeignKeysExpected(left: seq<(string, string)>, right: seq<(string, string)>)
    ensures ExpectedSide(ForeignKeyCounts(left, right, ForeignKeys)) == |left|
  {
    hide CountSum, Holder;
    ExtraKeysHaveNoExpected(left, right, |right|);
    forall i: nat | i < |left|
      ensures ExpectedSide(KeyRowCounts(left, right, ForeignKeys)(i)) == OneEach()(i)
    {
    }
    ExpectedSideSum(|left|, KeyRowCounts(left, right, ForeignKeys), OneEach());
    OneEachSum(|left|);
  }

  /** How many columns the matched expected tables hold. */
  ghost function MatchedColumns(e: seq<Entity>, a: seq<Entity>): nat -> nat {
    (i: nat) => if i < |e| && Partner(TableNames(e), TableNames(a), i).Some? then |e[i].attributes| else 0
  }

  lemma ContentRowExpected(e: seq<Entity>, a: seq<Entity>, includePositions: bool, i: nat)
    requires i < |e|
    ensures ExpectedSide(LeftCounts(TableNames(e), TableNames(a), EntityCells(e, a, includePositions, Columns), false)(i))
         == MatchedColumns(e, a)(i)
  {
    hide Partner, ColumnsCounts;
    var partner := Partner(TableNames(e), TableNames(a), i);
    if partner.Some? {
      ColumnsExpected(e[i].attributes, a[partner.value].attributes);
    }
  }

  lemma ContentExpected(e: seq<Entity>, a: seq<Entity>, includePositions: bool)
    ensures ExpectedSide(ContentCounts(e, a, includePositions, Columns)) == NatSum(|e|, MatchedColumns(e, a))
  {
    hide CountSum, LeftCounts, MatchedColumns, EntityCells;
    var names, others := TableNames(e), TableNames(a);
    var cells := EntityCells(e, a, includePositions, Columns);
    RightCountsHaveNoExpected(names, others, false, |a|);
    forall i: nat | i < |e|
      ensures ExpectedSide(LeftCounts(names, others, cells, false)(i)) == MatchedColumns(e, a)(i)
    {
      ContentRowExpected(e, a, includePositions, i);
    }
    ExpectedSideSum(|e|, LeftCounts(names, others, cells, false), MatchedColumns(e, a));
  }

  /** A matching none of whose cells count does not count. */
  lemma MatchTotalZero(left: seq<string>, right: seq<string>, cell: (nat, nat) -> Counts)
    requires forall i: nat, j: nat :: Paired(left, right, i, j) ==> cell(i, j) == NO_COUNTS
    ensures MatchTotal(left, right, cell, false) == NO_COUNTS
  {
    hide CountSum;
    CountSumZero(|left|, LeftCounts(left, right, cell, false));
    CountSumZero(|right|, RightCounts(left, right, false));
  }

  lemma ColumnsOnlyInTables(e: seq<Attribute>, a: seq<Attribute>, of: Category)
    requires of.Tables? || of.ForeignKeys? || of.Relationships?
    ensures ColumnsCounts(e, a, of) == NO_COUNTS
  {
    hide MatchTotal;
    MatchTotalZero(ColumnNames(e), ColumnNames(a), AttributeCells(e, a, of));
  }

  /** Which part of a comparison each conserved category comes from. */
  lemma CategoryParts(e: Schema, a: Schema, includePositions: bool)
    ensures SchemaCounts(e, a, includePositions, Tables) == TablesCounts(e.entities, a.entities, Tables)
    ensures SchemaCounts(e, a, includePositions, ForeignKeys) == ForeignKeyCounts(References(e), References(a), ForeignKeys)
    ensures SchemaCounts(e, a, includePositions, Relationships) == LinksCounts(e, a, Relationships)
    ensures SchemaCounts(e, a, includePositions, Columns) == ContentCounts(e.entities, a.entities, includePositions, Columns)
  {
    CategoryPart(e, a, includePositions, Tables);
    CategoryPart(e, a, includePositions, ForeignKeys);
    CategoryPart(e, a, includePositions, Relationships);
    CategoryPart(e, a, includePositions, Columns);
  }

  lemma TablesOnlyInTables(e: seq<Entity>, a: seq<Entity>, of: Category)
    requires of != Tables
    ensures TablesCounts(e, a, of) == NO_COUNTS
  {
    hide MatchTotal;
    MatchTotalZero(TableNames(e), TableNames(a), TableCells(of));
  }

  lemma ContentHoldsNo(e: seq<Entity>, a: seq<Entity>, includePositions: bool, of: Category)
    requires of.Tables? || of.ForeignKeys? || of.Relationships?
    ensures ContentCounts(e, a, includePositions, of) == NO_COUNTS
  {
    hide MatchTotal, ColumnsCounts;
    var cells := EntityCells(e, a, includePositions, of);
    forall i: nat, j: nat
      ensures cells(i, j) == NO_COUNTS
    {
      if i < |e| && j < |a| {
        ColumnsOnlyInTables(e[i].attributes, a[j].attributes, of);
      }
    }
    MatchTotalZero(TableNames(e), TableNames(a), cells);
  }

  lemma LinksHoldNo(e: Schema, a: Schema, of: Category)
    requires of.Tables? || of.ForeignKeys? || of.Columns?
    ensures LinksCounts(e, a, of) == NO_COUNTS
  {
    hide MatchTotal, Links;
    MatchTotalZero(Links(e), Links(a), LinkCells(e.relationships, a.relationships, of));
  }

  lemma CategoryPart(e: Schema, a: Schema, includePositions: bool, of: Category)
    requires of.Tables? || of.ForeignKeys? || of.Relationships? || of.Columns?
    ensures SchemaCounts(e, a, includePositions, of) ==
      match of
      case Tables => TablesCounts(e.entities, a.entities, of)
      case ForeignKeys => ForeignKeyCounts(References(e), References(a), of)
      case Relationships => LinksCounts(e, a, of)
      case _ => ContentCounts(e.entities, a.entities, includePositions, of)
  {
    hide References, TablesCounts, ContentCounts, ForeignKeyCounts, LinksCounts, Counts.Plus;
    PlusZero(TablesCounts(e.entities, a.entities, of));
    PlusZero(ContentCounts(e.entities, a.entities, includePositions, of));
    PlusZero(ForeignKeyCounts(References(e), References(a), of));
    PlusZero(LinksCounts(e, a, of));
    if of != Tables {
      TablesOnlyInTables(e.entities, a.entities, of);
    }
    if of != ForeignKeys {
      NoForeignKeyCounts(References(e), References(a), of);
    }
    if of != Relationships {
      LinksHoldNo(e, a, of);
    }
    if of != Columns {
      ContentHoldsNo(e.entities, a.entities, includePositions, of);
    }
  }

  /** Everything expected is accounted for: each table, relationship, foreign
      key, and column of a matched table, is matched, missing or changed. */
  lemma ExpectedIsConserved(e: Schema, a: Schema, includePositions: bool, c: Comparison)
    requires IsTotal(c, Compared(e, a, includePositions))
    ensures ExpectedSide(c.Of(Tables)) == |e.entities|
    ensures ExpectedSide(c.Of(Relationships)) == |e.relationships|
    ensures ExpectedSide(c.Of(ForeignKeys)) == |References(e)|
    ensures ExpectedSide(c.Of(Columns)) == NatSum(|e.entities|, MatchedColumns(e.entities, a.entities))
  {
    hide References, Compared, SchemaCounts, TablesCounts, LinksCounts, ContentCounts, ForeignKeyCounts, NatSum;
    ComparedCounts(e, a, includePositions, Tables);
    ComparedCounts(e, a, includePositions, Relationships);
    ComparedCounts(e, a, includePositions, ForeignKeys);
    ComparedCounts(e, a, includePositions, Columns);
    CategoryParts(e, a, includePositions);
    TablesExpected(e.entities, a.entities);
    LinksExpected(e, a);
    ForeignKeysExpected(References(e), References(a));
    ContentExpected(e.entities, a.entities, includePositions);
  }

  /** So is everything that came back: it is matched, extra or changed. Foreign
      keys need each holder spelled once. */
  lemma ActualIsConserved(e: Schema, a: Schema, includePositions: bool, c: Comparison)
    requires IsTotal(c, Compared(e, a, includePositions))
    ensures ActualSide(c.Of(Tables)) == |a.entities|
    ensures ActualSide(c.Of(Relationships)) == |a.relationships|
    ensures ActualSide(c.Of(Columns)) == NatSum(|a.entities|, MatchedColumns(a.entities, e.entities))
    ensures UniqueHolders(References(e)) && UniqueHolders(References(a)) ==>
      ActualSide(c.Of(ForeignKeys)) == |References(a)|
  {
    hide References, Compared, SchemaCounts, TablesCounts, LinksCounts, ContentCounts, ForeignKeyCounts, NatSum, UniqueHolders;
    ComparedCounts(e, a, includePositions, Tables);
    ComparedCounts(e, a, includePositions, Relationships);
    ComparedCounts(e, a, includePositions, ForeignKeys);
    ComparedCounts(e, a, includePositions, Columns);
    CategoryParts(e, a, includePositions);
    TablesCountsMirror(e.entities, a.entities, Tables);
    LinksCountsMirror(e, a, Relationships);
    ContentCountsMirror(e.entities, a.entities, includePositions, Columns);
    TablesExpected(a.entities, e.entities);
    LinksExpected(a, e);
    ForeignKeysExpected(References(a), References(e));
    ContentExpected(a.entities, e.entities, includePositions);
    if UniqueHolders(References(e)) && UniqueHolders(References(a)) {
      ForeignKeyCountsMirror(References(e), References(a), ForeignKeys);
    }
  }

  /** `score` is the share `part` has of `whole`; of nothing, all. */
  predicate IsShare(score: real, part: nat, whole: nat) {
    if whole == 0 then score == 1.0 else score * whole as real == part as real
  }

  lemma RatioIsShare(part: nat, whole: nat)
    ensures IsShare(Ratio(part, whole), part, whole)
  {
  }

  /** Precision is the share of the actual tables and lines that matched, recall
      that of the expected ones. */
  lemma ScoresAreShares(e: Schema, a: Schema, includePositions: bool, c: Comparison)
    requires IsTotal(c, Compared(e, a, includePositions))
    ensures IsShare(c.Of(Tables).Precision(), c.Of(Tables).matched, |a.entities|)
    ensures IsShare(c.Of(Tables).Recall(), c.Of(Tables).matched, |e.entities|)
    ensures IsShare(c.Of(Relationships).Precision(), c.Of(Relationships).matched, |a.relationships|)
    ensures IsShare(c.Of(Relationships).Recall(), c.Of(Relationships).matched, |e.relationships|)
  {
    hide References, Compared, Ratio, IsShare, NatSum;
    ExpectedIsConserved(e, a, includePositions, c);
    ActualIsConserved(e, a, includePositions, c);
    RatioIsShare(c.Of(Tables).matched, |a.entities|);
    RatioIsShare(c.Of(Tables).matched, |e.entities|);
    RatioIsShare(c.Of(Relationships).matched, |a.relationships|);
    RatioIsShare(c.Of(Relationships).matched, |e.relationships|);
  }
}
