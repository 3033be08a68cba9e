/** The laws of comparing equal, and what a comparison does not depend on. */
module EqualityLaws {
  import opened Options
  import opened Strings
  import opened Domain
  import opened Comparisons
  import opened Matching
  import opened Differ
  import opened Sums
  import opened Tallies
  import opened Mirroring
  import opened Equality

  // ----- every name finds itself -----

  lemma SelfPaired(names: seq<string>, i: nat, j: nat)
    requires i < |names| && j < |names|
    ensures Paired(names, names, i, j) <==> i == j
  {
    if Paired(names, names, i, j) {
      RankDetermines(names, i, j);
    }
  }

  lemma SelfPerfect(names: seq<string>)
    ensures Perfect(names, names)
  {
    forall i: nat | i < |names|
      ensures Partner(names, names, i).Some? && HasPartner(names, names, i)
    {
      assert Paired(names, names, i, i);
    }
  }

  lemma PerfectMirror(left: seq<string>, right: seq<string>)
    requires Perfect(left, right)
    ensures Perfect(right, left)
  {
    hide Paired, HasPartner, Partner;
    forall j: nat | j < |right|
      ensures Partner(right, left, j).Some?
    {
      HasPartnerMirror(left, right, j);
    }
    forall i: nat | i < |left|
      ensures HasPartner(right, left, i)
    {
      HasPartnerMirror(right, left, i);
    }
  }

  lemma PartnerByCount(a: seq<string>, b: seq<string>, i: nat) returns (j: nat)
    requires SameCounts(a, b) && i < |a|
    ensures Paired(a, b, i, j)
  {
    assert Same(a[i], a[i]);
    CountSameMonotone(a, i, |a|, a[i]);
    assert Total(a, a[i]) == Total(b, a[i]);
    j := OccurrenceOfRank(b, |b|, a[i], Rank(a, i));
  }

  lemma PerfectByCount(a: seq<string>, b: seq<string>)
    requires SameCounts(a, b)
    ensures Perfect(a, b)
  {
    hide SameCounts, Rank, Same;
    forall i: nat | i < |a|
      ensures Partner(a, b, i).Some?
    {
      var j := PartnerByCount(a, b, i);
    }
    assert SameCounts(b, a) by {
      SameCountsBack(a, b);
    }
    forall j: nat | j < |b|
      ensures HasPartner(a, b, j)
    {
      var i := PartnerByCount(b, a, j);
      PairedBack(b, a, j, i);
      assert i < |a| by {
        PairedInRange(a, b, i, j);
      }
    }
  }

  lemma PairedBack(a: seq<string>, b: seq<string>, i: nat, j: nat)
    requires Paired(a, b, i, j)
    ensures Paired(b, a, j, i)
  {
  }

  lemma SameCountsBack(a: seq<string>, b: seq<string>)
    requires SameCounts(a, b)
    ensures SameCounts(b, a)
  {
  }

  /** The last of many occurrences has no partner among fewer. */
  lemma NoFewer(a: seq<string>, b: seq<string>, name: string)
    requires Perfect(a, b)
    ensures Total(a, name) <= Total(b, name)
  {
    hide Same, Perfect;
    if Total(b, name) < Total(a, name) {
      var i := OccurrenceOfRank(a, |a|, name, Total(b, name));
      var j := PartnerOf(a, b, i);
      RankAsCounted(b, j, name, a[i]);
      CountSameMonotone(b, j, |b|, name);
      assert false;
    }
  }

  lemma PartnerOf(a: seq<string>, b: seq<string>, i: nat) returns (j: nat)
    requires Perfect(a, b) && i < |a|
    ensures Paired(a, b, i, j)
  {
    j := Partner(a, b, i).value;
  }

  lemma RankAsCounted(b: seq<string>, j: nat, name: string, other: string)
    requires j < |b| && Same(other, b[j]) && Same(other, name)
    ensures Same(b[j], name) && CountSame(b, j, name) == Rank(b, j)
  {
    CountSameCongruent(b, j, name, b[j]);
  }

  /** Two lists of names pair off completely exactly when each name is in both
      equally often. */
  lemma PerfectIff(a: seq<string>, b: seq<string>)
    ensures Perfect(a, b) <==> SameCounts(a, b)
  {
    hide Perfect, Total;
    if Perfect(a, b) {
      PerfectMirror(a, b);
      forall name: string
        ensures Total(a, name) == Total(b, name)
      {
        NoFewer(a, b, name);
        NoFewer(b, a, name);
      }
    }
    if SameCounts(a, b) {
      PerfectByCount(a, b);
    }
  }

  /** Pairings compose: the partner's partner is the partner. */
  lemma PairedCompose(a: seq<string>, b: seq<string>, c: seq<string>, i: nat, k: nat) returns (j: nat)
    requires Perfect(a, b) && Perfect(b, c) && Paired(a, c, i, k)
    ensures Paired(a, b, i, j) && Paired(b, c, j, k)
  {
    j := Partner(a, b, i).value;
    var l := Partner(b, c, j).value;
    assert Paired(a, c, i, l);
    PairedOnce(a, c, i, k, i, l);
  }

  lemma PerfectCompose(a: seq<string>, b: seq<string>, c: seq<string>)
    requires Perfect(a, b) && Perfect(b, c)
    ensures Perfect(a, c)
  {
    forall i: nat | i < |a|
      ensures Partner(a, c, i).Some?
    {
      var j := Partner(a, b, i).value;
      assert Paired(a, c, i, Partner(b, c, j).value);
    }
    forall k: nat | k < |c|
      ensures HasPartner(a, c, k)
    {
      assert HasPartner(b, c, k);
      var j :| 0 <= j < |b| && Paired(b, c, j, k);
      assert HasPartner(a, b, j);
      var i :| 0 <= i < |a| && Paired(a, b, i, j);
      assert Paired(a, c, i, k);
    }
  }

  // ----- reflexivity -----

  lemma ColumnsAgreeSelf(a: seq<Attribute>)
    ensures ColumnsAgree(a, a)
  {
    hide Perfect, Rank, Same;
    SelfPerfect(ColumnNames(a));
    forall i: nat, j: nat | Paired(ColumnNames(a), ColumnNames(a), i, j)
      ensures i == j
    {
      SelfPaired(ColumnNames(a), i, j);
    }
  }

  lemma TablesAgreeSelf(a: seq<Entity>, includePositions: bool)
    ensures TablesAgree(a, a, includePositions)
  {
    hide Perfect, Rank, Same, ColumnsAgree;
    SelfPerfect(TableNames(a));
    forall i: nat, j: nat | Paired(TableNames(a), TableNames(a), i, j)
      ensures EntitiesAgree(a[i], a[j], includePositions)
    {
      SelfPaired(TableNames(a), i, j);
      ColumnsAgreeSelf(a[i].attributes);
    }
  }

  lemma LinksAgreeSelf(a: Schema)
    ensures LinksAgree(a, a)
  {
    hide Perfect, Rank, Same, LinkText;
    SelfPerfect(Links(a));
    forall i: nat, j: nat | Paired(Links(a), Links(a), i, j)
      ensures i == j
    {
      SelfPaired(Links(a), i, j);
    }
  }

  /** Foreign keys spelled as held by the same column point at the same target. */
  ghost predicate ConsistentHolders(references: seq<(string, string)>) {
    forall i, j :: 0 <= i < |references| && 0 <= j < |references| && Same(references[i].0, references[j].0)
      ==> Same(references[i].1, references[j].1)
  }

  lemma KeysAgreeSelfIff(r: seq<(string, string)>)
    ensures KeysAgree(r, r) <==> ConsistentHolders(r)
  {
    hide Holder;
    if KeysAgree(r, r) {
      forall i, j | 0 <= i < |r| && 0 <= j < |r| && Same(r[i].0, r[j].0)
        ensures Same(r[i].1, r[j].1)
      {
        assert KeyAgrees(r, r, i) && KeyAgrees(r, r, j);
        HolderCongruent(r, r[i].0, r[j].0);
      }
    }
    if ConsistentHolders(r) {
      forall i: nat | i < |r|
        ensures KeyAgrees(r, r, i)
      {
        HolderFound(r, i);
      }
    }
  }

  lemma HolderFound(r: seq<(string, string)>, i: nat)
    requires i < |r|
    ensures Holder(r, r[i].0).Some?
  {
  }

  lemma HolderCongruent(r: seq<(string, string)>, a: string, b: string)
    requires Same(a, b)
    ensures Holder(r, a) == Holder(r, b)
  {
    var p, q := (x: (string, string)) => Same(x.0, a), (x: (string, string)) => Same(x.0, b);
    assert forall x: (string, string) :: p(x) == q(x);
    FirstSame(r, p, r, q);
  }

  /** A schema equals itself exactly when no two of its foreign keys are spelled
      as held by one column and point at different targets. */
  lemma EqualReflexiveIff(a: Schema, includePositions: bool)
    ensures SchemasAgree(a, a, includePositions) <==> ConsistentHolders(References(a))
  {
    hide References, TablesAgree, LinksAgree, KeysAgree, ConsistentHolders;
    TablesAgreeSelf(a.entities, includePositions);
    LinksAgreeSelf(a);
    KeysAgreeSelfIff(References(a));
  }

  // ----- symmetry -----

  lemma ColumnsAgreeSymmetric(e: seq<Attribute>, a: seq<Attribute>)
    requires ColumnsAgree(e, a)
    ensures ColumnsAgree(a, e)
  {
    hide Perfect, Paired, Trim;
    PerfectMirror(ColumnNames(e), ColumnNames(a));
    forall j: nat, i: nat | Paired(ColumnNames(a), ColumnNames(e), j, i)
      ensures j < |a| && i < |e| && AttributesAgree(a[j], e[i])
    {
      PairedMirror(ColumnNames(e), ColumnNames(a), i, j);
      PairedInRange(ColumnNames(a), ColumnNames(e), j, i);
      assert AttributesAgree(e[i], a[j]);
    }
  }

  lemma TablesAgreeSymmetric(e: seq<Entity>, a: seq<Entity>, includePositions: bool)
    requires TablesAgree(e, a, includePositions)
    ensures TablesAgree(a, e, includePositions)
  {
    hide Perfect, Paired, Trim, ColumnsAgree;
    PerfectMirror(TableNames(e), TableNames(a));
    forall j: nat, i: nat | Paired(TableNames(a), TableNames(e), j, i)
      ensures j < |a| && i < |e| && EntitiesAgree(a[j], e[i], includePositions)
    {
      PairedMirror(TableNames(e), TableNames(a), i, j);
      PairedInRange(TableNames(a), TableNames(e), j, i);
      assert EntitiesAgree(e[i], a[j], includePositions);
      ColumnsAgreeSymmetric(e[i].attributes, a[j].attributes);
    }
  }

  lemma LinksAgreeSymmetric(e: Schema, a: Schema)
    requires LinksAgree(e, a)
    ensures LinksAgree(a, e)
  {
    hide Perfect, Paired, Trim, LinkText;
    PerfectMirror(Links(e), Links(a));
    forall j: nat, i: nat | Paired(Links(a), Links(e), j, i)
      ensures j < |a.relationships| && i < |e.relationships| && LinkAgrees(a.relationships[j], e.relationships[i])
    {
      PairedMirror(Links(e), Links(a), i, j);
      PairedInRange(Links(a), Links(e), j, i);
      assert LinkAgrees(e.relationships[i], a.relationships[j]);
    }
  }

  lemma KeysAgreeSymmetric(left: seq<(string, string)>, right: seq<(string, string)>)
    requires KeysAgree(left, right) && ConsistentHolders(right)
    ensures KeysAgree(right, left)
  {
    hide Holder, Same;
    forall j: nat | j < |right|
      ensures KeyAgrees(right, left, j)
    {
      var i := Holder(left, right[j].0).value;
      assert KeyAgrees(left, right, i);
      var k := Holder(right, left[i].0).value;
      SameFacts();
      assert Same(right[k].0, right[j].0);
    }
    forall i: nat | i < |left|
      ensures Holder(right, left[i].0).Some?
    {
      assert KeyAgrees(left, right, i);
    }
  }

  lemma SameFacts()
    ensures forall a: string, b: string :: Same(a, b) ==> Same(b, a)
    ensures forall a: string, b: string, c: string :: Same(a, b) && Same(b, c) ==> Same(a, c)
  {
  }

  lemma EqualSymmetric(e: Schema, a: Schema, includePositions: bool)
    requires SchemasAgree(e, a, includePositions) && ConsistentHolders(References(a))
    ensures SchemasAgree(a, e, includePositions)
  {
    hide References, TablesAgree, LinksAgree, KeysAgree, ConsistentHolders;
    TablesAgreeSymmetric(e.entities, a.entities, includePositions);
    LinksAgreeSymmetric(e, a);
    KeysAgreeSymmetric(References(e), References(a));
  }

  // ----- transitivity -----

  lemma ColumnsAgreeTransitive(a: seq<Attribute>, b: seq<Attribute>, c: seq<Attribute>)
    requires ColumnsAgree(a, b) && ColumnsAgree(b, c)
    ensures ColumnsAgree(a, c)
  {
    hide Perfect, Paired, Trim;
    PerfectCompose(ColumnNames(a), ColumnNames(b), ColumnNames(c));
    forall i: nat, k: nat | Paired(ColumnNames(a), ColumnNames(c), i, k)
      ensures i < |a| && k < |c| && AttributesAgree(a[i], c[k])
    {
      var j := PairedCompose(ColumnNames(a), ColumnNames(b), ColumnNames(c), i, k);
      PairedInRange(ColumnNames(a), ColumnNames(b), i, j);
      PairedInRange(ColumnNames(b), ColumnNames(c), j, k);
      assert AttributesAgree(a[i], b[j]) && AttributesAgree(b[j], c[k]);
    }
  }

  lemma TablesAgreeTransitive(a: seq<Entity>, b: seq<Entity>, c: seq<Entity>, includePositions: bool)
    requires TablesAgree(a, b, includePositions) && TablesAgree(b, c, includePositions)
    ensures TablesAgree(a, c, includePositions)
  {
    hide Perfect, Paired, Trim, ColumnsAgree;
    PerfectCompose(TableNames(a), TableNames(b), TableNames(c));
    forall i: nat, k: nat | Paired(TableNames(a), TableNames(c), i, k)
      ensures i < |a| && k < |c| && EntitiesAgree(a[i], c[k], includePositions)
    {
      var j := PairedCompose(TableNames(a), TableNames(b), TableNames(c), i, k);
      PairedInRange(TableNames(a), TableNames(b), i, j);
      PairedInRange(TableNames(b), TableNames(c), j, k);
      assert EntitiesAgree(a[i], b[j], includePositions) && EntitiesAgree(b[j], c[k], includePositions);
      ColumnsAgreeTransitive(a[i].attributes, b[j].attributes, c[k].attributes);
    }
  }

  lemma LinksAgreeTransitive(a: Schema, b: Schema, c: Schema)
    requires LinksAgree(a, b) && LinksAgree(b, c)
    ensures LinksAgree(a, c)
  {
    hide Perfect, Paired, Trim, LinkText;
    PerfectCompose(Links(a), Links(b), Links(c));
    forall i: nat, k: nat | Paired(Links(a), Links(c), i, k)
      ensures i < |a.relationships| && k < |c.relationships| && LinkAgrees(a.relationships[i], c.relationships[k])
    {
      var j := PairedCompose(Links(a), Links(b), Links(c), i, k);
      PairedInRange(Links(a), Links(b), i, j);
      PairedInRange(Links(b), Links(c), j, k);
      assert LinkAgrees(a.relationships[i], b.relationships[j]) && LinkAgrees(b.relationships[j], c.relationships[k]);
    }
  }

  lemma KeysAgreeTransitive(a: seq<(string, string)>, b: seq<(string, string)>, c: seq<(string, string)>)
    requires KeysAgree(a, b) && KeysAgree(b, c)
    ensures KeysAgree(a, c)
  {
    hide Holder, Same;
    SameFacts();
    forall i: nat | i < |a|
      ensures KeyAgrees(a, c, i)
    {
      assert KeyAgrees(a, b, i);
      var j := Holder(b, a[i].0).value;
      assert KeyAgrees(b, c, j);
      HolderCongruent(c, a[i].0, b[j].0);
    }
    forall k: nat | k < |c|
      ensures Holder(a, c[k].0).Some?
    {
      var j := Holder(b, c[k].0).value;
      assert Holder(a, b[j].0).Some?;
      HolderCongruent(a, b[j].0, c[k].0);
    }
  }

  /** Agreement carries over, with no condition at all. */
  lemma EqualTransitive(a: Schema, b: Schema, c: Schema, includePositions: bool)
    requires SchemasAgree(a, b, includePositions) && SchemasAgree(b, c, includePositions)
    ensures SchemasAgree(a, c, includePositions)
  {
    hide References, TablesAgree, LinksAgree, KeysAgree;
    TablesAgreeTransitive(a.entities, b.entities, c.entities, includePositions);
    LinksAgreeTransitive(a, b, c);
    KeysAgreeTransitive(References(a), References(b), References(c));
  }

  // ----- the same laws, said of what `compare` returns -----

  /** A schema compares equal to itself exactly when no two of its foreign keys
      are spelled as held by one column and point at different targets. */
  lemma CompareReflexiveIff(a: Schema, includePositions: bool, c: Comparison)
    requires IsTotal(c, Compared(a, a, includePositions))
    ensures c.IsEqual() <==> ConsistentHolders(References(a))
  {
    hide IsTotal, SchemasAgree, ConsistentHolders, References, Comparison.IsEqual;
    EqualIffAgree(a, a, includePositions, c);
    EqualReflexiveIff(a, includePositions);
  }

  /** What compares equal one way does so the other way exactly when the right
      side compares equal to itself; with consistent holders on both sides the
      two comparisons always answer alike. */
  lemma CompareSymmetric(e: Schema, a: Schema, includePositions: bool, c: Comparison, back: Comparison)
    requires IsTotal(c, Compared(e, a, includePositions)) && IsTotal(back, Compared(a, e, includePositions))
    ensures c.IsEqual() ==> (back.IsEqual() <==> ConsistentHolders(References(a)))
    ensures ConsistentHolders(References(e)) && ConsistentHolders(References(a)) ==> (c.IsEqual() <==> back.IsEqual())
  {
    hide IsTotal, SchemasAgree, ConsistentHolders, References, Comparison.IsEqual;
    EqualIffAgree(e, a, includePositions, c);
    EqualIffAgree(a, e, includePositions, back);
    AgreeSymmetricIff(e, a, includePositions);
    AgreeSymmetricIff(a, e, includePositions);
  }

  lemma AgreeSymmetricIff(e: Schema, a: Schema, includePositions: bool)
    ensures SchemasAgree(e, a, includePositions) ==>
      (SchemasAgree(a, e, includePositions) <==> ConsistentHolders(References(a)))
  {
    hide SchemasAgree, ConsistentHolders, References;
    if SchemasAgree(e, a, includePositions) {
      EqualReflexiveIff(a, includePositions);
      if ConsistentHolders(References(a)) {
        EqualSymmetric(e, a, includePositions);
      }
      if SchemasAgree(a, e, includePositions) {
        EqualTransitive(a, e, a, includePositions);
      }
    }
  }

  lemma CompareTransitive(x: Schema, y: Schema, z: Schema, includePositions: bool, xy: Comparison, yz: Comparison, xz: Comparison)
    requires IsTotal(xy, Compared(x, y, includePositions)) && IsTotal(yz, Compared(y, z, includePositions))
    requires IsTotal(xz, Compared(x, z, includePositions))
    requires xy.IsEqual() && yz.IsEqual()
    ensures xz.IsEqual()
  {
    hide IsTotal, SchemasAgree, Comparison.IsEqual;
    EqualIffAgree(x, y, includePositions, xy);
    EqualIffAgree(y, z, includePositions, yz);
    EqualIffAgree(x, z, includePositions, xz);
    EqualTransitive(x, y, z, includePositions);
  }

  /** A column that points at attribute `to` of table `e`. */
  function PointingColumn(id: string, to: string): Attribute {
    Attribute(id, "x", "", DataType(DataTypeKind.Text, None, None, None), true, false, false,
              Some(ForeignKeyRef("e", to)), None)
  }

  /** One table with two columns of one name and different targets. */
  const TWICE_HELD := Schema("", "", [Entity("e", "t", "", [PointingColumn("a", "p"), PointingColumn("b", "q")], Position(0, 0))], [])

  /** Which schemas are not equal to themselves is no empty question. */
  lemma NotReflexiveExample(includePositions: bool)
    ensures !SchemasAgree(TWICE_HELD, TWICE_HELD, includePositions)
    ensures forall c :: IsTotal(c, Compared(TWICE_HELD, TWICE_HELD, includePositions)) ==> !c.IsEqual()
  {
    TwiceHeldInconsistent();
    hide IsTotal, Compared, SchemasAgree, ConsistentHolders, References, Comparison.IsEqual;
    EqualReflexiveIff(TWICE_HELD, includePositions);
    forall c | IsTotal(c, Compared(TWICE_HELD, TWICE_HELD, includePositions))
      ensures !c.IsEqual()
    {
      CompareReflexiveIff(TWICE_HELD, includePositions, c);
    }
  }

  lemma TwiceHeldInconsistent()
    ensures !ConsistentHolders(References(TWICE_HELD))
  {
    var table := TWICE_HELD.entities[0];
    assert TWICE_HELD.EntityAt("e") == Some(0);
    assert table.AttributeAt("p") == None && table.AttributeAt("q") == None;
    assert "t" + "." + "x" == "t.x" && "t" + "." + "p" == "t.p" && "t" + "." + "q" == "t.q";
    assert ColumnReference(TWICE_HELD, table, table.attributes[0]) == [("t.x", "t.p")];
    assert ColumnReference(TWICE_HELD, table, table.attributes[1]) == [("t.x", "t.q")];
    assert TableReferences(TWICE_HELD, table, 0) == [];
    assert TableReferences(TWICE_HELD, table, 1) == [("t.x", "t.p")];
    assert TableReferences(TWICE_HELD, table, 2) == [("t.x", "t.p"), ("t.x", "t.q")];
    assert ReferencesUpTo(TWICE_HELD, 0) == [];
    var r := References(TWICE_HELD);
    assert r == [("t.x", "t.p"), ("t.x", "t.q")];
    assert Lower("t.p")[2] != Lower("t.q")[2];
    assert Same(r[0].0, r[1].0) && !Same(r[0].1, r[1].1);
  }

  // ----- no difference means equal -----

  /** An event counts what it names: one thing missing or extra, or one thing
      changed in so many fields, or nothing at all. */
  ghost predicate Honest(e: Event) {
    || (|e.differences| == 1 && e.counts == CountsOfKind(e.differences[0].kind))
    || (e.counts.missing == 0 && e.counts.extra == 0 && e.counts.changed == (if e.differences == [] then 0 else 1)
        && forall k :: 0 <= k < |e.differences| ==> e.differences[k].kind.Changed?)
  }

  ghost predicate AllHonest(t: Trace) {
    forall k :: 0 <= k < |t| ==> Honest(t[k])
  }

  lemma HonestAppend(a: Trace, b: Trace)
    requires AllHonest(a) && AllHonest(b)
    ensures AllHonest(a + b)
  {
  }

  lemma {:induction false} HonestSum(n: nat, f: nat -> Trace)
    requires forall k: nat :: k < n ==> AllHonest(f(k))
    ensures AllHonest(Sum(n, f))
  {
    if n > 0 {
      HonestSum(n - 1, f);
      HonestAppend(Sum(n - 1, f), f(n - 1));
    }
  }

  lemma HonestAttribute(table: string, e: Attribute, a: Attribute)
    ensures AllHonest(AttributeFound(table, e, a))
  {
    hide Trim, ColumnFields, KeyFields;
    var path := ColumnPath(table, e.name);
    FieldsAreChanges(path, e, a);
    HonestAppend(Settled(Columns, ColumnFields(path, e, a)), KeysFound(path, e, a));
    HonestAppend(Settled(Columns, ColumnFields(path, e, a)) + KeysFound(path, e, a),
                 DescriptionFound(path, e.description, a.description));
  }

  lemma FieldsAreChanges(path: string, e: Attribute, a: Attribute)
    ensures forall k :: 0 <= k < |ColumnFields(path, e, a)| ==> ColumnFields(path, e, a)[k].kind.Changed?
    ensures forall k :: 0 <= k < |KeyFields(path, e, a)| ==> KeyFields(path, e, a)[k].kind.Changed?
  {
  }

  lemma HonestEntity(e: Entity, a: Entity, includePositions: bool)
    ensures AllHonest(EntityFound(e, a, includePositions))
  {
    hide Trim, AttributeFound, Sum, AllHonest, Partner, HasPartner;
    var path := TablePath(e.name);
    var rows, extras := ColumnRows(path, e.attributes, a.attributes), ExtraColumns(path, e.attributes, a.attributes);
    forall k: nat
      ensures AllHonest(rows(k)) && AllHonest(extras(k))
    {
      HonestColumn(path, e.attributes, a.attributes, k);
    }
    HonestSum(|e.attributes|, rows);
    HonestSum(|a.attributes|, extras);
    var prose := DescriptionFound(path, e.description, a.description);
    var place := if includePositions then PositionFound(path, e, a) else [];
    HonestHead(path, e, a, includePositions);
    HonestAppend(prose, place);
    HonestAppend(prose + place, Sum(|e.attributes|, rows));
    HonestAppend(prose + place + Sum(|e.attributes|, rows), Sum(|a.attributes|, extras));
  }

  lemma HonestHead(path: string, e: Entity, a: Entity, includePositions: bool)
    ensures AllHonest(DescriptionFound(path, e.description, a.description))
    ensures AllHonest(if includePositions then PositionFound(path, e, a) else [])
  {
    hide Trim, PositionText;
  }

  lemma HonestColumn(path: string, e: seq<Attribute>, a: seq<Attribute>, k: nat)
    ensures AllHonest(ColumnRow(path, e, a, k)) && AllHonest(ExtraColumn(path, e, a, k))
  {
    hide AttributeFound, Partner, HasPartner, ColumnPath;
    if k < |e| && Partner(ColumnNames(e), ColumnNames(a), k).Some? {
      HonestAttribute(path, e[k], a[Partner(ColumnNames(e), ColumnNames(a), k).value]);
    }
  }

  lemma HonestTable(e: seq<Entity>, a: seq<Entity>, includePositions: bool, k: nat)
    ensures AllHonest(TableRow(e, a, k)) && AllHonest(ExtraTable(e, a, k))
    ensures AllHonest(ContentRow(e, a, includePositions, k))
  {
    hide EntityFound, Partner, HasPartner, TablePath;
    if k < |e| && Partner(TableNames(e), TableNames(a), k).Some? {
      HonestEntity(e[k], a[Partner(TableNames(e), TableNames(a), k).value], includePositions);
    }
  }

  lemma HonestLink(e: Schema, a: Schema, k: nat)
    ensures AllHonest(LinkRow(e, a, k)) && AllHonest(ExtraLink(e, a, k))
  {
    hide Partner, HasPartner, LinkPath, LinkText, Trim;
  }

  lemma HonestKey(left: seq<(string, string)>, right: seq<(string, string)>, k: nat)
    ensures AllHonest(ForeignKeyRow(left, right, k)) && AllHonest(ExtraForeignKey(left, right, k))
  {
    hide Holder, Same;
  }

  lemma HonestCompared(e: Schema, a: Schema, includePositions: bool)
    ensures AllHonest(Compared(e, a, includePositions))
  {
    hide AllHonest, Sum, TableRow, ExtraTable, ContentRow, ForeignKeyRow, ExtraForeignKey, LinkRow, ExtraLink, References;
    var es, as_ := e.entities, a.entities;
    var left, right := References(e), References(a);
    forall k: nat
      ensures AllHonest(TableRows(es, as_)(k)) && AllHonest(ExtraTables(es, as_)(k))
      ensures AllHonest(ContentRows(es, as_, includePositions)(k))
      ensures AllHonest(ForeignKeyRows(left, right)(k)) && AllHonest(ExtraForeignKeys(left, right)(k))
      ensures AllHonest(LinkRows(e, a)(k)) && AllHonest(ExtraLinks(e, a)(k))
    {
      HonestTable(es, as_, includePositions, k);
      HonestKey(left, right, k);
      HonestLink(e, a, k);
    }
    HonestSum(|es|, TableRows(es, as_));
    HonestSum(|as_|, ExtraTables(es, as_));
    HonestSum(|es|, ContentRows(es, as_, includePositions));
    HonestSum(|left|, ForeignKeyRows(left, right));
    HonestSum(|right|, ExtraForeignKeys(left, right));
    HonestSum(|e.relationships|, LinkRows(e, a));
    HonestSum(|a.relationships|, ExtraLinks(e, a));
    HonestAppend(Sum(|es|, TableRows(es, as_)), Sum(|as_|, ExtraTables(es, as_)));
    HonestAppend(Sum(|left|, ForeignKeyRows(left, right)), Sum(|right|, ExtraForeignKeys(left, right)));
    HonestAppend(Sum(|e.relationships|, LinkRows(e, a)), Sum(|a.relationships|, ExtraLinks(e, a)));
    HonestAppend(TablesPart(e, a), ContentPart(e, a, includePositions));
    HonestAppend(TablesPart(e, a) + ContentPart(e, a, includePositions), ForeignKeysPart(e, a));
    HonestAppend(TablesPart(e, a) + ContentPart(e, a, includePositions) + ForeignKeysPart(e, a), RelationshipsPart(e, a));
  }

  ghost predicate AllClean(t: Trace) {
    forall of: Category :: CountsOf(t, of).IsClean()
  }

  lemma AllCleanStep(t: Trace)
    requires t != []
    ensures AllClean(t) <==> AllClean(t[..|t| - 1]) && t[|t| - 1].counts.IsClean()
  {
    hide Counts.Plus;
    var before, last := t[..|t| - 1], t[|t| - 1];
    forall of: Category
      ensures CountsOf(t, of).IsClean() <==> CountsOf(before, of).IsClean() && (last.category == of ==> last.counts.IsClean())
    {
      PlusClean(CountsOf(before, of), last.counts);
    }
    if AllClean(t) {
      assert CountsOf(t, last.category).IsClean();
      forall of: Category
        ensures CountsOf(before, of).IsClean()
      {
        assert CountsOf(t, of).IsClean();
      }
    }
  }

  lemma {:induction false} HonestTotal(t: Trace)
    requires AllHonest(t)
    ensures DifferencesOf(t) == [] <==> AllClean(t)
  {
    hide AllClean;
    if t == [] {
      NothingIsClean();
    } else {
      var before, last := t[..|t| - 1], t[|t| - 1];
      HonestTotal(before);
      AllCleanStep(t);
      assert Honest(last);
      assert |DifferencesOf(t)| == |DifferencesOf(before)| + |last.differences|;
    }
  }

  lemma NothingIsClean()
    ensures AllClean([])
  {
  }

  /** For all inputs: equal exactly when no difference is listed. */
  lemma EqualIffNoDifference(e: Schema, a: Schema, includePositions: bool, c: Comparison)
    requires IsTotal(c, Compared(e, a, includePositions))
    ensures c.IsEqual() <==> c.differences == []
  {
    hide Compared, CountsOf, DifferencesOf, Counts.IsClean, AllHonest;
    HonestCompared(e, a, includePositions);
    HonestTotal(Compared(e, a, includePositions));
    var t := Compared(e, a, includePositions);
    forall of: Category
      ensures c.Of(of).IsClean() <==> CountsOf(t, of).IsClean()
    {
    }
    if c.IsEqual() {
      forall of: Category
        ensures CountsOf(t, of).IsClean()
      {
        assert c.Of(of).IsClean();
      }
    } else {
      var of: Category :| !c.Of(of).IsClean();
      assert !CountsOf(t, of).IsClean();
    }
  }

  // ----- the greedy pairing is the largest -----

  /** A pairing of names that never pairs two different ones, or one twice. */
  ghost predicate NameRespecting(left: seq<string>, right: seq<string>, pairing: set<(nat, nat)>) {
    && (forall p :: p in pairing ==> p.0 < |left| && p.1 < |right| && Same(left[p.0], right[p.1]))
    && (forall p, q :: p in pairing && q in pairing && (p.0 == q.0 || p.1 == q.1) ==> p == q)
  }

  ghost function GreedyPairs(left: seq<string>, right: seq<string>): set<(nat, nat)> {
    set i: nat, j: nat | 0 <= i < |left| && 0 <= j < |right| && Paired(left, right, i, j) :: (i, j)
  }

  lemma {:induction false} RankOfEnd(names: seq<string>, i: nat, k: nat)
    requires i < k <= |names|
    ensures Rank(names, i) < CountSame(names, k, names[i])
  {
    CountSameMonotone(names, i, k, names[i]);
  }

  /** Of a name's occurrences on two sides, all of the rarer side's are paired. */
  lemma RarerSideIsPaired(left: seq<string>, right: seq<string>, i: nat, j: nat)
    requires i < |left| && j < |right| && Same(left[i], right[j])
    ensures CountSame(left, |left|, left[i]) <= CountSame(right, |right|, left[i]) ==> Partner(left, right, i).Some?
    ensures CountSame(left, |left|, left[i]) > CountSame(right, |right|, left[i]) ==> Partner(right, left, j).Some?
  {
    RankOfEnd(left, i, |left|);
    RankOfEnd(right, j, |right|);
    CountSameCongruent(right, |right|, left[i], right[j]);
    CountSameCongruent(left, |left|, left[i], right[j]);
    if CountSame(left, |left|, left[i]) <= CountSame(right, |right|, left[i]) {
      var k := OccurrenceOfRank(right, |right|, left[i], Rank(left, i));
      assert Paired(left, right, i, k);
    } else {
      var k := OccurrenceOfRank(left, |left|, right[j], Rank(right, j));
      assert Paired(right, left, j, k);
    }
  }

  /** The greedy pair that takes up one end of `p`. */
  ghost function Charged(left: seq<string>, right: seq<string>, p: (nat, nat)): (nat, nat)
    requires p.0 < |left| && p.1 < |right| && Same(left[p.0], right[p.1])
  {
    RarerSideIsPaired(left, right, p.0, p.1);
    if CountSame(left, |left|, left[p.0]) <= CountSame(right, |right|, left[p.0])
    then (p.0, Partner(left, right, p.0).value)
    else (Partner(right, left, p.1).value, p.1)
  }

  /** The greedy pair charged shares an end with `p`, and its other end is of
      the same name. */
  lemma ChargedSharesAnEnd(left: seq<string>, right: seq<string>, p: (nat, nat))
    requires p.0 < |left| && p.1 < |right| && Same(left[p.0], right[p.1])
    ensures var c := Charged(left, right, p);
            c.0 < |left| && Same(left[c.0], left[p.0])
    ensures var c := Charged(left, right, p);
            if CountSame(left, |left|, left[p.0]) <= CountSame(right, |right|, left[p.0]) then c.0 == p.0 else c.1 == p.1
  {
    hide Rank, CountSame;
    RarerSideIsPaired(left, right, p.0, p.1);
  }

  lemma ChargedInjective(left: seq<string>, right: seq<string>, pairing: set<(nat, nat)>, p: (nat, nat), q: (nat, nat))
    requires NameRespecting(left, right, pairing) && p in pairing && q in pairing
    requires Charged(left, right, p) == Charged(left, right, q)
    ensures p == q
  {
    hide Rank, CountSame, Charged;
    ChargedSharesAnEnd(left, right, p);
    ChargedSharesAnEnd(left, right, q);
    CountSameCongruent(left, |left|, left[p.0], left[q.0]);
    CountSameCongruent(right, |right|, left[p.0], left[q.0]);
  }

  lemma ChargedIsGreedy(left: seq<string>, right: seq<string>, p: (nat, nat))
    requires p.0 < |left| && p.1 < |right| && Same(left[p.0], right[p.1])
    ensures Charged(left, right, p) in GreedyPairs(left, right)
  {
    hide Rank, Same;
    RarerSideIsPaired(left, right, p.0, p.1);
    var c := Charged(left, right, p);
    PairedMirror(left, right, c.0, c.1);
    assert Paired(left, right, c.0, c.1);
  }

  lemma {:induction false} InjectionSize(s: set<(nat, nat)>, f: ((nat, nat)) --> (nat, nat), t: set<(nat, nat)>)
    requires forall p :: p in s ==> f.requires(p) && f(p) in t
    requires forall p, q :: p in s && q in s && f(p) == f(q) ==> p == q
    ensures |s| <= |t|
    decreases |s|
  {
    if s != {} {
      var p :| p in s;
      InjectionSize(s - {p}, f, t - {f(p)});
    }
  }

  /** No pairing that respects names pairs more than the greedy one does. */
  lemma GreedyIsLargest(left: seq<string>, right: seq<string>, pairing: set<(nat, nat)>)
    requires NameRespecting(left, right, pairing)
    ensures |pairing| <= |GreedyPairs(left, right)|
  {
    hide Same, Paired, Charged, GreedyPairs;
    var f := (p: (nat, nat)) requires p.0 < |left| && p.1 < |right| && Same(left[p.0], right[p.1]) => Charged(left, right, p);
    forall p | p in pairing
      ensures f.requires(p) && f(p) in GreedyPairs(left, right)
    {
      ChargedIsGreedy(left, right, p);
    }
    forall p, q | p in pairing && q in pairing && f(p) == f(q)
      ensures p == q
    {
      ChargedInjective(left, right, pairing, p, q);
    }
    InjectionSize(pairing, f, GreedyPairs(left, right));
  }

  ghost function GreedyPairsBelow(left: seq<string>, right: seq<string>, n: nat): set<(nat, nat)>
    requires n <= |left|
  {
    set i: nat, j: nat | 0 <= i < n && 0 <= j < |right| && Paired(left, right, i, j) :: (i, j)
  }

  lemma {:induction false} MatchedCountsPairs(left: seq<string>, right: seq<string>, cell: (nat, nat) -> Counts, n: nat)
    requires n <= |left| && forall i: nat, j: nat :: cell(i, j) == ONE_MATCHED
    ensures CountSum(n, LeftCounts(left, right, cell, true)).matched == |GreedyPairsBelow(left, right, n)|
  {
    if n == 0 {
      assert GreedyPairsBelow(left, right, 0) == {};
    } else {
      MatchedCountsPairs(left, right, cell, n - 1);
      var before, all := GreedyPairsBelow(left, right, n - 1), GreedyPairsBelow(left, right, n);
      GreedyPairsStep(left, right, n);
    }
  }

  lemma GreedyPairsStep(left: seq<string>, right: seq<string>, n: nat)
    requires 0 < n <= |left|
    ensures |GreedyPairsBelow(left, right, n)|
         == |GreedyPairsBelow(left, right, n - 1)| + (if Partner(left, right, n - 1).Some? then 1 else 0)
  {
    hide Paired;
    var i := n - 1;
    var before, all := GreedyPairsBelow(left, right, i), GreedyPairsBelow(left, right, n);
    match Partner(left, right, i) {
      case None => assert all == before;
      case Some(j) =>
        PairedInRange(left, right, i, j);
        forall k: nat | Paired(left, right, i, k)
          ensures k == j
        {
          PartnerIs(left, right, i, k);
        }
        assert all == before + {(i, j)};
    }
  }

  /** As many tables match as any pairing that respects names could match. */
  lemma TablesMatchedAreMost(e: Schema, a: Schema, includePositions: bool, c: Comparison, pairing: set<(nat, nat)>)
    requires IsTotal(c, Compared(e, a, includePositions))
    requires NameRespecting(TableNames(e.entities), TableNames(a.entities), pairing)
    ensures |pairing| <= c.Of(Tables).matched
  {
    hide Compared, SchemaCounts, CountSum, Paired, NameRespecting, CountsOf;
    var names, others := TableNames(e.entities), TableNames(a.entities);
    var cells := TableCells(Tables);
    GreedyIsLargest(names, others, pairing);
    MatchedCountsPairs(names, others, cells, |names|);
    assert GreedyPairsBelow(names, others, |names|) == GreedyPairs(names, others);
    ComparedCounts(e, a, includePositions, Tables);
    CategoryParts(e, a, includePositions);
  }

}
